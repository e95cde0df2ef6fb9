/** The state that every database keeps, and what replaying it returns. */
module StoreFacts {
  import opened Results
  import opened Schema
  import opened Reducer
  import opened FoldFacts
  import opened ClockIndependence
  import opened Consistency
  import opened StoreTables

  // ----- the invariant -----

  /** What init_trajectory stores as the first checkpoint. */
  ghost predicate FreshSnapshot(g: Snapshot, tid: string) {
    g.trajectoryId == tid && g.sequence == 0 && g.lastEventHash.None? && g.lastSignature.None? && EmptyState(g)
  }

  function Genesis(t: Tables, tid: string): Snapshot
    requires CheckpointsOf(t, tid) != []
  {
    CheckpointsOf(t, tid)[0].snapshot
  }

  /** A checkpoint is the row that _insert_snapshot writes for a fold of the log up to its sequence. */
  ghost predicate ValidCheckpoint(row: CheckpointRow, g: Snapshot, log: seq<HarnessEvent>) {
    && 0 <= row.sequence <= |log|
    && row == CheckpointRowFor(row.snapshot, row.sequence, row.snapshotId)
    && FoldsTo(g, log[..row.sequence], row.snapshot)
  }

  ghost predicate RowHasKey(rows: seq<EventRow>, keys: map<string, KeyRow>, i: int)
    requires 0 <= i < |rows|
  {
    var h := rows[i].event.header;
    h.idempotencyKey in keys && keys[h.idempotencyKey] == KeyRow(rows[i].requestHash, h.eventId, i + 1, h.eventHash)
  }

  ghost predicate KeyHasRow(rows: seq<EventRow>, keys: map<string, KeyRow>, k: string)
    requires k in keys
  {
    1 <= keys[k].sequence <= |rows| && rows[keys[k].sequence - 1].event.header.idempotencyKey == k
  }

  /** The key table is a bijection between keys and rows, and remembers what was asked for. */
  ghost predicate KeysMatch(rows: seq<EventRow>, keys: map<string, KeyRow>) {
    && (forall i :: 0 <= i < |rows| ==> RowHasKey(rows, keys, i))
    && (forall k :: k in keys ==> KeyHasRow(rows, keys, k))
  }

  /** A row stores the hash of the request that its event answers. */
  ghost predicate RequestHashed(row: EventRow) {
    var h := row.event.header;
    row.requestHash == RequestDigest(h.eventType, row.event.payload, h.actor, h.actionId, h.parentEventId)
  }

  ghost predicate Accepted(g: Snapshot, log: seq<HarnessEvent>) {
    exists s :: FoldsTo(g, log, s)
  }

  ghost predicate ValidTrajectory(t: Tables, key: Option<string>, tid: string) {
    var checkpoints, rows := CheckpointsOf(t, tid), RowsOf(t, tid);
    && checkpoints != []
    && FreshSnapshot(Genesis(t, tid), tid)
    && checkpoints[0].sequence == 0
    && (forall i :: 0 <= i < |checkpoints| ==> ValidCheckpoint(checkpoints[i], Genesis(t, tid), Log(t, tid)))
    && Accepted(Genesis(t, tid), Log(t, tid))
    && Authentic(Log(t, tid), key)
    && KeysMatch(rows, KeysOf(t, tid))
    && (forall i :: 0 <= i < |rows| ==> RequestHashed(rows[i]))
  }

  ghost predicate ValidTables(t: Tables, key: Option<string>) {
    && (forall tid :: tid in t.trajectories ==> ValidTrajectory(t, key, tid))
    && (forall tid :: tid !in t.trajectories ==> tid !in t.events && tid !in t.keys && tid !in t.checkpoints)
  }

  // ----- queries on consecutively numbered rows -----

  lemma LogLength(t: Tables, tid: string)
    ensures |Log(t, tid)| == |RowsOf(t, tid)|
  {
  }

  ghost predicate Numbered(rows: seq<EventRow>, base: int) {
    forall i :: 0 <= i < |rows| ==> rows[i].event.header.sequence == base + i + 1
  }

  lemma LogNumbered(t: Tables, key: Option<string>, tid: string)
    requires ValidTrajectory(t, key, tid)
    ensures Numbered(RowsOf(t, tid), 0)
  {
    hide ReduceEvent, KeysMatch, RequestHashed, Authentic, ValidCheckpoint, EmptyState;
    var s :| FoldsTo(Genesis(t, tid), Log(t, tid), s);
    var clock: Clock :| Fold(Genesis(t, tid), Log(t, tid), clock) == Success(s);
    FoldNumbering(Genesis(t, tid), Log(t, tid), clock);
  }

  lemma {:induction false} AfterIsSuffix(rows: seq<EventRow>, base: int, n: nat)
    requires Numbered(rows, base) && n <= |rows|
    ensures RowsAfter(rows, base + n) == rows[n..]
    ensures CountUpTo(rows, base + n) == n
  {
    if n == 0 {
      NothingBefore(rows, base, base);
    } else {
      AfterIsSuffix(rows[1..], base + 1, n - 1);
    }
  }

  lemma {:induction false} UntilIsPrefix(rows: seq<EventRow>, base: int, n: nat)
    requires Numbered(rows, base) && n <= |rows|
    ensures RowsUntil(rows, Some(base + n)) == rows[..n]
  {
    if n > 0 {
      UntilIsPrefix(rows[1..], base + 1, n - 1);
      assert rows[..n] == [rows[0]] + rows[1..][..n - 1];
    }
  }

  lemma {:induction false} UntilNoneIsAll(rows: seq<EventRow>)
    ensures RowsUntil(rows, None) == rows
  {
    if rows != [] {
      UntilNoneIsAll(rows[1..]);
    }
  }

  lemma {:induction false} AtIsIndex(rows: seq<EventRow>, base: int, n: nat)
    requires Numbered(rows, base) && 0 < n <= |rows|
    ensures RowAt(rows, base + n) == Some(rows[n - 1])
  {
    if n > 1 {
      AtIsIndex(rows[1..], base + 1, n - 1);
    }
  }

  lemma {:induction false} NothingBefore(rows: seq<EventRow>, base: int, n: int)
    requires Numbered(rows, base) && n <= base
    ensures RowsAfter(rows, n) == rows && CountUpTo(rows, n) == 0
  {
    if rows != [] {
      NothingBefore(rows[1..], base + 1, n);
    }
  }

  // ----- replay against fold -----

  function Lift(r: Reduced): Result<Snapshot, StoreError> {
    match r
    case Success(s) => Success(s)
    case Failure(error) => Failure(ReducerRefused(error))
  }

  lemma {:induction false} ReplayRowsIsFold(s: Snapshot, rows: seq<EventRow>, key: Option<string>, clock: Clock)
    requires Authentic(Events(rows), key)
    ensures ReplayRows(s, rows, key, clock) == Lift(Fold(s, Events(rows), clock))
    decreases |rows|
  {
    hide Handle;
    if rows != [] {
      var init := rows[..|rows| - 1];
      assert Events(rows)[..|rows| - 1] == Events(init);
      assert Events(rows)[|rows| - 1] == rows[|rows| - 1].event;
      ReplayRowsIsFold(s, init, key, clock);
    }
  }

  lemma FoldsToNumbering(g: Snapshot, log: seq<HarnessEvent>, s: Snapshot)
    requires FoldsTo(g, log, s)
    ensures s.sequence == g.sequence + |log| && s.trajectoryId == g.trajectoryId
    ensures |log| > 0 ==> s.lastEventHash == Some(log[|log| - 1].header.eventHash)
                          && s.lastSignature == log[|log| - 1].header.signature
    ensures |log| == 0 ==> s == g
  {
    hide Fold;
    var clock: Clock :| Fold(g, log, clock) == Success(s);
    FoldNumbering(g, log, clock);
  }

  /** The facts about one stored checkpoint that the lemmas below use. */
  lemma CheckpointFacts(t: Tables, key: Option<string>, tid: string, row: CheckpointRow)
    requires ValidTrajectory(t, key, tid) && row in CheckpointsOf(t, tid)
    ensures ValidCheckpoint(row, Genesis(t, tid), Log(t, tid))
    ensures row.snapshot.sequence == row.sequence && row.snapshot.trajectoryId == tid
    ensures row.sequence == 0 ==> row.snapshot == Genesis(t, tid)
    ensures row.sequence > 0 ==>
              var h := Log(t, tid)[row.sequence - 1].header;
              row.snapshot.lastEventHash == Some(h.eventHash) && row.snapshot.lastSignature == h.signature
  {
    hide KeysMatch, RequestHashed, Accepted, WellFormedEvent;
    hide Fold;
    FoldsToNumbering(Genesis(t, tid), Log(t, tid)[..row.sequence], row.snapshot);
  }

  /** A stored checkpoint validates exactly when its snapshot is unsigned, that is for every
    checkpoint of an unsigned store and only for the genesis checkpoint of a signed one. */
  lemma CheckpointUsableIff(t: Tables, key: Option<string>, tid: string, row: CheckpointRow)
    requires ValidTrajectory(t, key, tid) && row in CheckpointsOf(t, tid)
    ensures ValidateCheckpoint(row, RowsOf(t, tid)) <==> key.None? || row.sequence == 0
  {
    hide KeysMatch, RequestHashed, Accepted, WellFormedEvent;
    hide Fold;
    CheckpointFacts(t, key, tid, row);
    LogNumbered(t, key, tid);
    AfterIsSuffix(RowsOf(t, tid), 0, row.sequence);
    if row.sequence > 0 {
      AtIsIndex(RowsOf(t, tid), 0, row.sequence);
      assert VerifySignature(Log(t, tid)[row.sequence - 1].header, key);
    }
  }

  lemma RowsInRange(t: Tables, key: Option<string>, tid: string, k: nat, n: nat)
    requires ValidTrajectory(t, key, tid) && k <= n <= |Log(t, tid)|
    ensures RowsAfter(RowsOf(t, tid), k) == RowsOf(t, tid)[k..]
    ensures RowsUntil(RowsOf(t, tid)[k..], Some(n)) == RowsOf(t, tid)[k..n]
  {
    hide Fold, FoldsTo, KeysMatch, RequestHashed, Authentic, Accepted, RowsAfter, RowsUntil;
    LogNumbered(t, key, tid);
    NumberedRange(RowsOf(t, tid), k, n);
  }

  lemma NumberedRange(rows: seq<EventRow>, k: nat, n: nat)
    requires Numbered(rows, 0) && k <= n <= |rows|
    ensures RowsAfter(rows, k) == rows[k..]
    ensures RowsUntil(rows[k..], Some(n)) == rows[k..n]
  {
    hide RowsAfter, RowsUntil, Numbered;
    AfterIsSuffix(rows, 0, k);
    NumberedTail(rows, k);
    UntilIsPrefix(rows[k..], k, n - k);
    assert rows[k..][..n - k] == rows[k..n];
  }

  lemma NumberedTail(rows: seq<EventRow>, k: nat)
    requires Numbered(rows, 0) && k <= |rows|
    ensures Numbered(rows[k..], k)
  {
  }

  /** The rows of a valid trajectory decode, in any range. */
  lemma RowsReadable(rows: seq<EventRow>, key: Option<string>, k: nat, n: nat)
    requires Authentic(Events(rows), key) && k <= n <= |rows|
    ensures forall r :: r in rows[k..] ==> ReadableRow(r, key)
    ensures Events(rows[k..n]) == Events(rows)[k..n]
    ensures Authentic(Events(rows[k..n]), key)
  {
    hide WellFormedEvent, VerifySignature;
    forall r | r in rows[k..] ensures ReadableRow(r, key) {
      var i :| k <= i < |rows| && rows[i] == r;
      assert Events(rows)[i] == r.event;
    }
  }

  /** Replaying up to n from the newest checkpoint at or below n is folding the events in between; a
    signed store refuses as soon as that checkpoint lies past genesis. */
  lemma ReplayFromCheckpoint(t: Tables, key: Option<string>, tid: string, n: nat, clock: Clock)
    requires tid in t.trajectories && ValidTrajectory(t, key, tid) && n <= |Log(t, tid)|
    ensures var row := LatestCheckpoint(CheckpointsOf(t, tid), Some(n));
      && row.Some? && 0 <= row.value.sequence <= n
      && Replay(t, key, tid, Some(n), clock) ==
         if key.Some? && row.value.sequence > 0 then Failure(BadCheckpoint)
         else Lift(Fold(row.value.snapshot, Log(t, tid)[row.value.sequence..n], clock))
  {
    hide KeysMatch, RequestHashed, Accepted, WellFormedEvent;
    hide Fold, ReplayRows, ValidateCheckpoint;
    var rows, log := RowsOf(t, tid), Log(t, tid);
    assert CheckpointsOf(t, tid)[0] in CheckpointsOf(t, tid);
    var row := LatestCheckpoint(CheckpointsOf(t, tid), Some(n)).value;
    CheckpointFacts(t, key, tid, row);
    CheckpointUsableIff(t, key, tid, row);
    RowsInRange(t, key, tid, row.sequence, n);
    RowsReadable(rows, key, row.sequence, n);
    ReplayRowsIsFold(row.snapshot, rows[row.sequence..n], key, clock);
  }

  /** Whatever a replay up to n returns is a fold of the first n events from genesis. */
  lemma ReplayIsFold(t: Tables, key: Option<string>, tid: string, n: nat, clock: Clock)
    requires tid in t.trajectories && ValidTrajectory(t, key, tid) && n <= |Log(t, tid)|
    ensures var r := Replay(t, key, tid, Some(n), clock);
      r.Success? ==> FoldsTo(Genesis(t, tid), Log(t, tid)[..n], r.value)
  {
    hide KeysMatch, RequestHashed, Accepted, WellFormedEvent;
    hide Fold, ReplayRows, ValidateCheckpoint, FoldsTo;
    var log, g := Log(t, tid), Genesis(t, tid);
    ReplayFromCheckpoint(t, key, tid, n, clock);
    var row := LatestCheckpoint(CheckpointsOf(t, tid), Some(n)).value;
    CheckpointFacts(t, key, tid, row);
    var r := Replay(t, key, tid, Some(n), clock);
    if r.Success? {
      FoldsToExtend(g, log[..row.sequence], row.snapshot, log[row.sequence..n], clock, r.value);
      assert log[..row.sequence] + log[row.sequence..n] == log[..n];
    }
  }

  /** Going on from a fold of the first k events equals one fold under the clock that joins both readings. */
  lemma ResumeIsFold(
    g: Snapshot, log: seq<HarnessEvent>, k: nat, n: nat, s: Snapshot, clock: Clock) returns (joined: Clock)
    requires g.sequence == 0 && k <= n <= |log| && FoldsTo(g, log[..k], s)
    ensures Fold(s, log[k..n], clock) == Fold(g, log[..n], joined)
  {
    hide ReduceEvent;
    var before: Clock :| Fold(g, log[..k], before) == Success(s);
    joined := j => if j <= k then before(j) else clock(j);
    FoldsToNumbering(g, log[..k], s);
    FoldClockAgree(g, log[..k], before, joined);
    FoldClockAgree(s, log[k..n], clock, joined);
    FoldConcat(g, log[..k], log[k..n], joined);
    assert log[..k] + log[k..n] == log[..n];
  }

  /** The events that a replay up to n reduces: those after the newest checkpoint at or below n. */
  function ReplayedEvents(t: Tables, tid: string, n: nat): seq<HarnessEvent> {
    var row := LatestCheckpoint(CheckpointsOf(t, tid), Some(n));
    if row.Some? && 0 <= row.value.sequence <= n <= |Log(t, tid)| then Log(t, tid)[row.value.sequence..n] else []
  }

  ghost predicate SometimesReplays(t: Tables, key: Option<string>, tid: string, n: nat) {
    exists c: Clock :: Replay(t, key, tid, Some(n), c).Success?
  }

  ghost predicate AlwaysReplays(t: Tables, key: Option<string>, tid: string, n: nat) {
    forall c: Clock :: Replay(t, key, tid, Some(n), c).Success?
  }

  /** What can be replayed up to n at some time can be replayed up to n at every time exactly when, among the
    events that the replay reduces, no checkpoint event follows a clock-reading one. */
  lemma AlwaysReplaysIff(t: Tables, key: Option<string>, tid: string, n: nat)
    requires tid in t.trajectories && ValidTrajectory(t, key, tid) && n <= |Log(t, tid)|
    requires SometimesReplays(t, key, tid, n)
    ensures AlwaysReplays(t, key, tid, n) <==> CheckpointSafe(ReplayedEvents(t, tid, n))
  {
    hide ValidTrajectory, Fold, Replay, CheckpointSafe, Log;
    var before: Clock :| Replay(t, key, tid, Some(n), before).Success?;
    ReplayFromCheckpoint(t, key, tid, n, before);
    var row := LatestCheckpoint(CheckpointsOf(t, tid), Some(n)).value;
    AlwaysReplayableIff(row.snapshot, ReplayedEvents(t, tid, n), before);
    forall c: Clock
      ensures Replay(t, key, tid, Some(n), c) == Lift(Fold(row.snapshot, ReplayedEvents(t, tid, n), c))
    {
      ReplayFromCheckpoint(t, key, tid, n, c);
    }
    if AlwaysReplays(t, key, tid, n) {
      forall c: Clock ensures Fold(row.snapshot, ReplayedEvents(t, tid, n), c).Success? {
        assert Replay(t, key, tid, Some(n), c).Success?;
      }
    }
  }

  /** A replay up to n and a fold of the first n events from genesis, each under its own clock, agree up to
    the stamps that the clock leaves, and exactly if no event reads the clock. In an unsigned store both
    succeed if the first n events are checkpoint-safe. */
  lemma ReplayIsFoldFromGenesis(t: Tables, key: Option<string>, tid: string, n: nat, clock: Clock, c: Clock)
    requires tid in t.trajectories && ValidTrajectory(t, key, tid) && n <= |Log(t, tid)|
    ensures var r, f := Replay(t, key, tid, Some(n), clock), Fold(Genesis(t, tid), Log(t, tid)[..n], c);
      && (r.Success? && f.Success? ==> SameUpToStamps(f.value, r.value, RevisedIds(Log(t, tid)[..n])))
      && (r.Success? && ClockFree(Log(t, tid)[..n]) ==> Success(r.value) == f)
      && (key.None? && CheckpointSafe(Log(t, tid)[..n]) ==> r.Success? && f.Success?)
  {
    hide Fold, ReplayRows, ValidateCheckpoint, SameUpToStamps, CheckpointSafe, FoldsTo, Replay;
    var log, g := Log(t, tid), Genesis(t, tid);
    ReplayFromCheckpoint(t, key, tid, n, clock);
    var row := LatestCheckpoint(CheckpointsOf(t, tid), Some(n)).value;
    CheckpointFacts(t, key, tid, row);
    var joined := ResumeIsFold(g, log, row.sequence, n, row.snapshot, clock);
    if Fold(g, log[..n], joined).Success? && Fold(g, log[..n], c).Success? {
      AcceptedReplaysAgree(g, log[..n], c, joined);
    }
    if ClockFree(log[..n]) {
      ClockFreeReplaysAreEqual(g, log[..n], c, joined);
    }
    if CheckpointSafe(log[..n]) {
      PrefixAccepted(g, log, n, joined);
      PrefixAccepted(g, log, n, c);
    }
  }

  lemma PrefixAccepted(g: Snapshot, log: seq<HarnessEvent>, n: nat, c: Clock)
    requires Accepted(g, log) && n <= |log| && CheckpointSafe(log[..n])
    ensures Fold(g, log[..n], c).Success?
  {
    hide Fold, SameUpToStamps;
    var s :| FoldsTo(g, log, s);
    var clock: Clock :| Fold(g, log, clock) == Success(s);
    FoldPrefix(g, log, n, clock);
    ReplaysAgree(g, log[..n], clock, c);
  }

  /** The head that a commit works on is the replay of the whole log. */
  lemma LoadHeadIsReplay(t: Tables, key: Option<string>, tid: string, clock: Clock)
    requires tid in t.trajectories && ValidTrajectory(t, key, tid)
    ensures LoadHead(t, key, tid, clock) == Replay(t, key, tid, None, clock) ==
        Replay(t, key, tid, Some(|Log(t, tid)|), clock)
  {
    hide KeysMatch, RequestHashed, Accepted, WellFormedEvent;
    hide Fold, ReplayRows, ValidateCheckpoint, FoldsTo;
    var rows, n := RowsOf(t, tid), |Log(t, tid)|;
    SameLatest(CheckpointsOf(t, tid), n);
    assert CheckpointsOf(t, tid)[0] in CheckpointsOf(t, tid);
    var row := LatestCheckpoint(CheckpointsOf(t, tid), None).value;
    CheckpointFacts(t, key, tid, row);
    RowsInRange(t, key, tid, row.sequence, n);
    RowsReadable(rows, key, row.sequence, n);
    UntilNoneIsAll(rows[row.sequence..]);
    assert rows[row.sequence..n] == rows[row.sequence..];
  }

  /** The loaded head is a fold of the whole log. An unsigned store loads it at every time if its log is
    checkpoint-safe. */
  lemma LoadHeadIsFold(t: Tables, key: Option<string>, tid: string, clock: Clock)
    requires tid in t.trajectories && ValidTrajectory(t, key, tid)
    ensures var r := LoadHead(t, key, tid, clock);
      r.Success? ==> FoldsTo(Genesis(t, tid), Log(t, tid), r.value) && r.value.sequence == |Log(t, tid)|
    ensures key.None? && CheckpointSafe(Log(t, tid)) ==> LoadHead(t, key, tid, clock).Success?
  {
    hide KeysMatch, RequestHashed, Authentic, ValidCheckpoint, EmptyState;
    hide Fold, LoadHead, Replay, FoldsTo, CheckpointSafe, SameUpToStamps;
    var log := Log(t, tid);
    LoadHeadIsReplay(t, key, tid, clock);
    ReplayIsFold(t, key, tid, |log|, clock);
    assert log[..|log|] == log;
    var r := LoadHead(t, key, tid, clock);
    if r.Success? {
      FoldsToNumbering(Genesis(t, tid), log, r.value);
    }
    if key.None? && CheckpointSafe(log) {
      ReplayIsFoldFromGenesis(t, key, tid, |log|, clock, clock);
    }
  }

  ghost predicate SometimesLoads(t: Tables, key: Option<string>, tid: string) {
    exists c: Clock :: LoadHead(t, key, tid, c).Success?
  }

  ghost predicate AlwaysLoads(t: Tables, key: Option<string>, tid: string) {
    forall c: Clock :: LoadHead(t, key, tid, c).Success?
  }

  /** A head that loads at some time loads at every time exactly when no checkpoint event follows a
    clock-reading one after the newest checkpoint; what lies before it does not matter. */
  lemma AlwaysLoadsIff(t: Tables, key: Option<string>, tid: string)
    requires tid in t.trajectories && ValidTrajectory(t, key, tid)
    requires SometimesLoads(t, key, tid)
    ensures AlwaysLoads(t, key, tid) <==> CheckpointSafe(ReplayedEvents(t, tid, |Log(t, tid)|))
  {
    hide ValidTrajectory, LoadHead, Replay, CheckpointSafe, ReplayedEvents;
    var n := |Log(t, tid)|;
    forall c: Clock ensures LoadHead(t, key, tid, c) == Replay(t, key, tid, Some(n), c) {
      LoadHeadIsReplay(t, key, tid, c);
    }
    var before: Clock :| LoadHead(t, key, tid, before).Success?;
    assert Replay(t, key, tid, Some(n), before).Success?;
    AlwaysReplaysIff(t, key, tid, n);
    if AlwaysLoads(t, key, tid) {
      forall c: Clock ensures Replay(t, key, tid, Some(n), c).Success? {
        assert LoadHead(t, key, tid, c).Success?;
      }
    }
    if AlwaysReplays(t, key, tid, n) {
      forall c: Clock ensures LoadHead(t, key, tid, c).Success? {
        assert Replay(t, key, tid, Some(n), c).Success?;
      }
    }
  }

  lemma {:induction false} SameLatest(rows: seq<CheckpointRow>, n: int)
    requires forall q :: q in rows ==> q.sequence <= n
    ensures LatestCheckpoint(rows, None) == LatestCheckpoint(rows, Some(n))
  {
    if rows != [] {
      SameLatest(rows[1..], n);
    }
  }

  lemma CheckpointsInRange(t: Tables, key: Option<string>, tid: string)
    requires ValidTrajectory(t, key, tid)
    ensures forall q :: q in CheckpointsOf(t, tid) ==> 0 <= q.sequence <= |Log(t, tid)|
  {
    hide KeysMatch, RequestHashed, Accepted, WellFormedEvent, VerifySignature, Fold, FoldsTo, Authentic;
    var checkpoints := CheckpointsOf(t, tid);
    forall q | q in checkpoints ensures 0 <= q.sequence <= |Log(t, tid)| {
      var i :| 0 <= i < |checkpoints| && checkpoints[i] == q;
      assert ValidCheckpoint(checkpoints[i], Genesis(t, tid), Log(t, tid));
    }
  }

  lemma BoundBehindHead(t: Tables, key: Option<string>, tid: string, n: int, clock: Clock)
    requires tid in t.trajectories && ValidTrajectory(t, key, tid) && n > |Log(t, tid)|
    ensures Replay(t, key, tid, Some(n), clock) == Replay(t, key, tid, None, clock)
  {
    hide KeysMatch, RequestHashed, Accepted, WellFormedEvent, VerifySignature, Fold, FoldsTo, Authentic, ReplayRows,
      ValidateCheckpoint, ValidCheckpoint, ReadableRow;
    var rows, checkpoints := RowsOf(t, tid), CheckpointsOf(t, tid);
    LogNumbered(t, key, tid);
    CheckpointsInRange(t, key, tid);
    SameLatest(checkpoints, n);
    assert checkpoints[0] in checkpoints;
    hide ValidTrajectory;
    var row := LatestCheckpoint(checkpoints, None).value;
    CheckpointFacts(t, key, tid, row);
    AfterIsSuffix(rows, 0, row.sequence);
    NumberedTail(rows, row.sequence);
    UntilBeyond(rows[row.sequence..], row.sequence, n);
    UntilNoneIsAll(rows[row.sequence..]);
  }

  /** An unknown trajectory is an error, as is a bound before genesis; a bound behind the head is no bound. */
  lemma ReplayBounds(t: Tables, key: Option<string>, tid: string, n: int, clock: Clock)
    requires tid in t.trajectories ==> ValidTrajectory(t, key, tid)
    ensures tid !in t.trajectories ==>
              Replay(t, key, tid, Some(n), clock) == Replay(t, key, tid, None, clock) ==
              LoadHead(t, key, tid, clock) == Failure(TrajectoryNotFound)
    ensures tid in t.trajectories && n < 0 ==> Replay(t, key, tid, Some(n), clock) == Failure(NoCheckpoint)
    ensures tid in t.trajectories && n > |Log(t, tid)| ==>
              Replay(t, key, tid, Some(n), clock) == Replay(t, key, tid, None, clock)
  {
    hide ValidTrajectory, ReplayRows, ValidateCheckpoint, RowsUntil, RowsAfter, ReadableRow;
    if tid in t.trajectories {
      CheckpointsInRange(t, key, tid);
      if n > |Log(t, tid)| { BoundBehindHead(t, key, tid, n, clock); }
    }
  }

  lemma {:induction false} UntilBeyond(rows: seq<EventRow>, base: int, n: int)
    requires Numbered(rows, base) && base + |rows| <= n
    ensures RowsUntil(rows, Some(n)) == rows
  {
    if rows != [] { UntilBeyond(rows[1..], base + 1, n); }
  }

  /** The state hash sees everything but the time of the snapshot. */
  lemma StateHashIff(s: Snapshot, t: Snapshot)
    ensures ComputeStateHash(s) == ComputeStateHash(t) <==> t == s.(createdAt := t.createdAt)
  {
    assert s.(createdAt := 0) == t.(createdAt := 0) ==> t == s.(createdAt := 0).(createdAt := t.createdAt);
    assert t == s.(createdAt := t.createdAt) ==> s.(createdAt := 0) == t.(createdAt := 0);
  }
}
