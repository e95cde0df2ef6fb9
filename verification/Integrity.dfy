/** What a reading of the store detects, on tables that need not be valid: a checkpoint that was changed, and a row
  behind it that was changed.
 */
module Integrity {
  import opened Results
  import opened Schema
  import opened Reducer
  import opened FoldFacts
  import opened StoreTables
  import opened StoreFacts

  /** The row of a checkpoint agrees with itself, with its snapshot, and with the event at its sequence. */
  ghost predicate IntactCheckpoint(row: CheckpointRow, rows: seq<EventRow>) {
    var s := row.snapshot;
    && 0 <= row.sequence <= |rows| && row.eventCount == row.sequence && s.sequence == row.sequence
    && row.stateHash == StateDigest(s.(createdAt := 0))
    && row.checkpointHash == CheckpointDigest(
         row.snapshotId, row.trajectoryId, row.epochId, row.sequence, row.stateHash, row.lastEventHash,
         row.lastSignature, row.sequence)
    && row.lastEventHash == s.lastEventHash && row.lastSignature == s.lastSignature
    && (row.sequence == 0 ==> s.lastEventHash.None?)
    && (row.sequence > 0 ==>
          var h := rows[row.sequence - 1].event.header;
          s.lastEventHash == Some(h.eventHash) && s.lastSignature == h.signature)
  }

  lemma {:induction false} CountIsIndex(rows: seq<EventRow>, base: int, n: int)
    requires Numbered(rows, base)
    ensures CountUpTo(rows, n) == if n <= base then 0 else if n >= base + |rows| then |rows| else n - base
  {
    if rows != [] {
      assert forall i :: 0 <= i < |rows| - 1 ==> rows[1..][i] == rows[i + 1];
      CountIsIndex(rows[1..], base + 1, n);
      assert rows[0].event.header.sequence == base + 1;
    }
  }

  /** Validation accepts exactly the intact checkpoints. */
  lemma CheckpointValidIff(row: CheckpointRow, rows: seq<EventRow>)
    requires Numbered(rows, 0)
    ensures ValidateCheckpoint(row, rows) <==> IntactCheckpoint(row, rows)
  {
    hide CountUpTo, RowAt;
    CountIsIndex(rows, 0, row.sequence);
    if 0 < row.sequence <= |rows| { AtIsIndex(rows, 0, row.sequence); }
  }

  // ----- rows -----

  lemma {:induction false} AfterMembers(rows: seq<EventRow>, n: int)
    ensures forall r :: r in RowsAfter(rows, n) <==> r in rows && r.event.header.sequence > n
  {
    if rows != [] {
      AfterMembers(rows[1..], n);
      assert rows == [rows[0]] + rows[1..];
    }
  }

  lemma {:induction false} ReplayedRowsReadable(s: Snapshot, rows: seq<EventRow>, key: Option<string>, clock: Clock)
    requires ReplayRows(s, rows, key, clock).Success?
    ensures forall r :: r in rows ==> ReadableRow(r, key)
    decreases |rows|
  {
    hide ReduceEvent, ReadableRow;
    if rows != [] {
      var init := rows[..|rows| - 1];
      ReplayedRowsReadable(s, init, key, clock);
      assert rows == init + [rows[|rows| - 1]];
    }
  }

  /** An event row that is not what its hash, its payload's digest and its signature say. */
  predicate Tampered(row: EventRow, key: Option<string>) {
    var e := row.event;
    var h := e.header;
    || h.eventType != PayloadTypeName(e.payload)
    || e.payloadHash != PayloadDigest(e.payload)
    || h.eventHash != EventDigest(
         h.eventId, h.trajectoryId, h.sequence, h.eventType, h.schemaVersion, h.idempotencyKey, h.parentEventId,
         h.createdAt, h.actor, h.actionId, PayloadDigest(e.payload), h.previousEventHash, h.previousSignature)
    || h.signature != (if key.None? then None else Some(SignatureDigest(key.value, h.eventHash, h.previousSignature)))
  }

  lemma ReadableIff(row: EventRow, key: Option<string>)
    ensures ReadableRow(row, key) <==> !Tampered(row, key)
  {
    AuthenticExact(row.event, key);
  }

  /** The newest checkpoint at or below the bound. */
  ghost predicate Newest(rows: seq<CheckpointRow>, bound: Option<int>, row: CheckpointRow) {
    && row in rows && (bound.Some? ==> row.sequence <= bound.value)
    && forall q :: q in rows && (bound.Some? ==> q.sequence <= bound.value) ==> q.sequence < row.sequence || q == row
  }

  lemma NewestIsLatest(rows: seq<CheckpointRow>, bound: Option<int>, row: CheckpointRow)
    requires Newest(rows, bound, row)
    ensures LatestCheckpoint(rows, bound) == Some(row)
  {
    var r := LatestCheckpoint(rows, bound);
    assert r.Some? && row.sequence <= r.value.sequence;
  }

  /** A changed checkpoint blocks every reading that would start from it, and a changed row behind it every reading
    at all: the store never returns a snapshot that was built on either. */
  lemma TamperingIsDetected(
    t: Tables, key: Option<string>, tid: string, upTo: Option<int>, clock: Clock, row: CheckpointRow)
    requires tid in t.trajectories && Numbered(RowsOf(t, tid), 0) && Newest(CheckpointsOf(t, tid), upTo, row)
    ensures var rows, intact := RowsOf(t, tid), IntactCheckpoint(row, RowsOf(t, tid));
      var changed := exists r :: r in rows && r.event.header.sequence > row.sequence && Tampered(r, key);
      && (!intact ==> Replay(t, key, tid, upTo, clock) == Failure(BadCheckpoint))
      && (intact && changed ==> Replay(t, key, tid, upTo, clock) == Failure(IntegrityFailure))
      && (upTo.None? && !intact ==> LoadHead(t, key, tid, clock) == Failure(BadCheckpoint))
      && (upTo.None? && changed ==> LoadHead(t, key, tid, clock).Failure?)
  {
    hide ReplayRows, RowsAfter, LatestCheckpoint, ReadableRow, ValidateCheckpoint, Tampered, IntactCheckpoint;
    var rows := RowsOf(t, tid);
    NewestIsLatest(CheckpointsOf(t, tid), upTo, row);
    CheckpointValidIff(row, rows);
    if IntactCheckpoint(row, rows) {
      IntactSequence(row, rows);
      AfterMembers(rows, row.sequence);
      if r :| r in rows && r.event.header.sequence > row.sequence && Tampered(r, key) {
        ReadableIff(r, key);
        if ReplayRows(row.snapshot, RowsAfter(rows, row.sequence), key, clock).Success? {
          ReplayedRowsReadable(row.snapshot, RowsAfter(rows, row.sequence), key, clock);
        }
      }
    }
  }

  lemma IntactSequence(row: CheckpointRow, rows: seq<EventRow>)
    requires IntactCheckpoint(row, rows)
    ensures row.snapshot.sequence == row.sequence
  {
  }

  /** Without the trajectory, or without a checkpoint at or below the bound, there is nothing to read. */
  lemma NothingToRead(t: Tables, key: Option<string>, tid: string, upTo: Option<int>, clock: Clock)
    ensures tid !in t.trajectories ==>
              && Replay(t, key, tid, upTo, clock) == Failure(TrajectoryNotFound)
              && LoadHead(t, key, tid, clock) == Failure(TrajectoryNotFound)
    ensures tid in t.trajectories
              && (forall q :: q in CheckpointsOf(t, tid) ==> upTo.Some? && q.sequence > upTo.value) ==>
              Replay(t, key, tid, upTo, clock) == Failure(NoCheckpoint)
    ensures tid in t.trajectories && CheckpointsOf(t, tid) == [] ==>
              LoadHead(t, key, tid, clock) == Failure(NoCheckpoint)
  {
    hide ReplayRows, RowsAfter, ValidateCheckpoint;
    if LatestCheckpoint(CheckpointsOf(t, tid), upTo).Some? {
      assert LatestCheckpoint(CheckpointsOf(t, tid), upTo).value in CheckpointsOf(t, tid);
    }
  }

  /** Then nothing can be committed either. */
  lemma TamperedStoreRefusesCommits(
    t: Tables, key: Option<string>, tid: string, expectedSequence: int, expectedHash: Option<Hash>,
    ps: seq<ProposedEvent>, env: Env)
    requires LoadHead(t, key, tid, env.clock).Failure? && ps != []
    ensures Commit(t, key, tid, expectedSequence, expectedHash, ps, env) == (t, Failure(CommitFailed))
  {
    hide LoadHead;
  }
}
