/** store.py as functions over the contents of its tables.

  A table is split by trajectory, as every query of the store is. Rows of one
  trajectory are kept in insertion order, which in every reachable database is
  the sequence order that the queries ask for (StoreFacts.ValidTrajectory).
 */
module StoreTables {
  import opened Results
  import opened Schema
  import opened Reducer

  datatype StoreError =
    | DatabaseLocked | NoProposals | TrajectoryNotFound | TrajectoryExists | NoCheckpoint
    | BadCheckpoint | CheckpointConflict | IntegrityFailure | ReducerRefused(error: ReduceError)
    | StaleContext | IdempotencyConflict | CommitFailed

  datatype TrajectoryRow = TrajectoryRow(createdAt: Time, epochId: string)

  datatype EventRow = EventRow(event: HarnessEvent, requestHash: Hash)

  datatype KeyRow = KeyRow(requestHash: Hash, eventId: string, sequence: int, eventHash: Hash)

  datatype CheckpointRow = CheckpointRow(
    snapshotId: SnapshotId, trajectoryId: string, epochId: string, sequence: int,
    stateHash: Hash, lastEventHash: Option<Hash>, lastSignature: Option<Hash>,
    eventCount: int, snapshot: Snapshot, checkpointHash: Hash)

  datatype Tables = Tables(
    trajectories: map<string, TrajectoryRow>,
    events: map<string, seq<EventRow>>,
    keys: map<string, map<string, KeyRow>>,
    checkpoints: map<string, seq<CheckpointRow>>)

  datatype CommitReceipt = CommitReceipt(
    eventId: string, sequence: int, eventHash: Hash, idempotencyKey: string, requestHash: Hash)

  datatype CommitResult = CommitResult(
    trajectoryId: string, firstSequence: int, lastSequence: int, headHash: Option<Hash>,
    committedEvents: seq<HarnessEvent>, receipts: seq<CommitReceipt>)

  /** What a commit takes from outside: fresh event ids and the readings of the clock. */
  datatype Env = Env(ids: int -> string, stamps: int -> Time, clock: Clock)

  // ----- queries -----

  function RowsOf(t: Tables, tid: string): seq<EventRow> {
    if tid in t.events then t.events[tid] else []
  }

  function KeysOf(t: Tables, tid: string): map<string, KeyRow> {
    if tid in t.keys then t.keys[tid] else map[]
  }

  function CheckpointsOf(t: Tables, tid: string): seq<CheckpointRow> {
    if tid in t.checkpoints then t.checkpoints[tid] else []
  }

  function Events(rows: seq<EventRow>): (log: seq<HarnessEvent>)
    ensures |log| == |rows| && forall i :: 0 <= i < |rows| ==> log[i] == rows[i].event
  {
    seq(|rows|, i requires 0 <= i < |rows| => rows[i].event)
  }

  function Log(t: Tables, tid: string): seq<HarnessEvent> {
    Events(RowsOf(t, tid))
  }

  /** WHERE sequence > n */
  function RowsAfter(rows: seq<EventRow>, n: int): seq<EventRow> {
    if rows == [] then []
    else (if rows[0].event.header.sequence > n then [rows[0]] else []) + RowsAfter(rows[1..], n)
  }

  /** COUNT(*) WHERE sequence <= n */
  function CountUpTo(rows: seq<EventRow>, n: int): nat {
    if rows == [] then 0
    else (if rows[0].event.header.sequence <= n then 1 else 0) + CountUpTo(rows[1..], n)
  }

  /** WHERE sequence = n */
  function RowAt(rows: seq<EventRow>, n: int): Option<EventRow> {
    if rows == [] then None
    else if rows[0].event.header.sequence == n then Some(rows[0])
    else RowAt(rows[1..], n)
  }

  /** WHERE sequence <= bound ORDER BY sequence DESC LIMIT 1 */
  function LatestCheckpoint(rows: seq<CheckpointRow>, bound: Option<int>): (r: Option<CheckpointRow>)
    ensures r.Some? ==> r.value in rows && (bound.Some? ==> r.value.sequence <= bound.value)
    ensures forall q :: q in rows && (bound.Some? ==> q.sequence <= bound.value) ==>
              r.Some? && q.sequence <= r.value.sequence
  {
    if rows == [] then None
    else
      var rest := LatestCheckpoint(rows[1..], bound);
      var first := rows[0];
      if bound.Some? && first.sequence > bound.value then rest
      else if rest.Some? && rest.value.sequence >= first.sequence then rest
      else Some(first)
  }

  predicate EventIdTaken(t: Tables, id: string) {
    exists tid :: tid in t.events && exists i :: 0 <= i < |t.events[tid]| && t.events[tid][i].event.header.eventId == id
  }

  // ----- checkpoints -----

  /** _insert_snapshot: the hash covers the signature, the signature column stays NULL. */
  function CheckpointRowFor(s: Snapshot, eventCount: int, id: SnapshotId): CheckpointRow {
    CheckpointRow(id, s.trajectoryId, s.epochId, s.sequence, ComputeStateHash(s), s.lastEventHash, None, eventCount, s,
                  CheckpointDigest(id, s.trajectoryId, s.epochId, s.sequence, ComputeStateHash(s),
                                   s.lastEventHash, s.lastSignature, eventCount))
  }

  function CheckpointHashFromRow(row: CheckpointRow): Hash {
    CheckpointDigest(row.snapshotId, row.trajectoryId, row.epochId, row.sequence, row.stateHash,
                     row.lastEventHash, row.lastSignature, row.eventCount)
  }

  /** _validate_checkpoint_row returns normally. */
  predicate ValidateCheckpoint(row: CheckpointRow, rows: seq<EventRow>) {
    && CountUpTo(rows, row.sequence) == row.sequence
    && row.eventCount == row.sequence
    && row.checkpointHash == CheckpointHashFromRow(row)
    && row.snapshot.sequence == row.sequence
    && ComputeStateHash(row.snapshot) == row.stateHash
    && row.snapshot.lastEventHash == row.lastEventHash
    && row.snapshot.lastSignature == row.lastSignature
    && if row.sequence == 0 then row.snapshot.lastEventHash.None?
       else
         var at := RowAt(rows, row.sequence);
         && at.Some?
         && Some(at.value.event.header.eventHash) == row.snapshot.lastEventHash
         && at.value.event.header.signature == row.snapshot.lastSignature
  }

  /** UNIQUE(trajectory_id, sequence); the snapshot id determines both. */
  function InsertCheckpoint(t: Tables, tid: string, row: CheckpointRow): Result<Tables, StoreError> {
    var rows := CheckpointsOf(t, tid);
    if exists q :: q in rows && q.sequence == row.sequence then Failure(CheckpointConflict)
    else Success(t.(checkpoints := t.checkpoints[tid := rows + [row]]))
  }

  // ----- replay -----

  /** _event_from_row: what the event constructor and the signature check accept. */
  predicate ReadableRow(row: EventRow, key: Option<string>) {
    WellFormedEvent(row.event) && VerifySignature(row.event.header, key)
  }

  /** Decode and reduce row after row. */
  function ReplayRows(s: Snapshot, rows: seq<EventRow>, key: Option<string>, clock: Clock): Result<Snapshot, StoreError>
    decreases |rows|
  {
    if rows == [] then Success(s)
    else
      var prefix :- ReplayRows(s, rows[..|rows| - 1], key, clock);
      var row := rows[|rows| - 1];
      if !ReadableRow(row, key) then Failure(IntegrityFailure)
      else
        match ReduceEvent(prefix, row.event, clock(row.event.header.sequence))
        case Failure(error) => Failure(ReducerRefused(error))
        case Success(next) => Success(next)
  }

  /** _load_trajectory_head */
  function LoadHead(t: Tables, key: Option<string>, tid: string, clock: Clock): Result<Snapshot, StoreError> {
    if tid !in t.trajectories then Failure(TrajectoryNotFound)
    else
      match LatestCheckpoint(CheckpointsOf(t, tid), None)
      case None => Failure(NoCheckpoint)
      case Some(row) =>
        if !ValidateCheckpoint(row, RowsOf(t, tid)) then Failure(BadCheckpoint)
        else ReplayRows(row.snapshot, RowsAfter(RowsOf(t, tid), row.snapshot.sequence), key, clock)
  }

  /** The rows up to the first one beyond the bound. */
  function RowsUntil(rows: seq<EventRow>, bound: Option<int>): seq<EventRow> {
    if rows == [] then []
    else if bound.Some? && rows[0].event.header.sequence > bound.value then []
    else [rows[0]] + RowsUntil(rows[1..], bound)
  }

  /** replay: every row after the checkpoint is decoded first, then the wanted ones are reduced. */
  function Replay(
    t: Tables, key: Option<string>, tid: string, upTo: Option<int>, clock: Clock): Result<Snapshot, StoreError>
  {
    if tid !in t.trajectories then Failure(TrajectoryNotFound)
    else
      match LatestCheckpoint(CheckpointsOf(t, tid), upTo)
      case None => Failure(NoCheckpoint)
      case Some(row) =>
        if !ValidateCheckpoint(row, RowsOf(t, tid)) then Failure(BadCheckpoint)
        else
          var rows := RowsAfter(RowsOf(t, tid), row.snapshot.sequence);
          if exists r :: r in rows && !ReadableRow(r, key) then Failure(IntegrityFailure)
          else ReplayRows(row.snapshot, RowsUntil(rows, upTo), key, clock)
  }

  /** _load_trajectory_head_projection: sequence, hash and signature of the last event. */
  function HeadProjection(t: Tables, tid: string): Result<(int, Option<Hash>, Option<Hash>), StoreError> {
    if tid !in t.trajectories then Failure(TrajectoryNotFound)
    else
      var rows := RowsOf(t, tid);
      if rows == [] then Success((0, None, None))
      else
        var h := rows[|rows| - 1].event.header;
        Success((h.sequence, Some(h.eventHash), h.signature))
  }

  predicate AtProjection(s: Snapshot, head: (int, Option<Hash>, Option<Hash>)) {
    s.sequence == head.0 && s.lastEventHash == head.1 && s.lastSignature == head.2
  }

  // ----- lifecycle -----

  function InitialBudget(tid: string, budget: Option<BudgetLedger>): BudgetLedger {
    if budget.Some? then budget.value else BudgetLedger(tid, 0, 0, 0, None, 0, None, 0.0)
  }

  function InitTrajectory(t: Tables, tid: string, epochId: string, budget: Option<BudgetLedger>, now: Time)
    : Result<Tables, StoreError>
  {
    if tid in t.trajectories then Failure(TrajectoryExists)
    else
      var s := GenesisSnapshot(tid, epochId, InitialBudget(tid, budget), now);
      var t' := t.(trajectories := t.trajectories[tid := TrajectoryRow(now, epochId)]);
      match InsertCheckpoint(t', tid, CheckpointRowFor(s, 0, GenesisId(tid)))
      case Success(u) => Success(u)
      case Failure(_) => Failure(TrajectoryExists)
  }

  function SaveSnapshot(t: Tables, s: Snapshot, eventCount: int): Result<Tables, StoreError> {
    var head :- HeadProjection(t, s.trajectoryId);
    if !AtProjection(s, head) then Failure(BadCheckpoint)
    else InsertCheckpoint(t, s.trajectoryId, CheckpointRowFor(s, eventCount, CheckpointId(s.trajectoryId, s.sequence)))
  }

  // ----- commit -----

  function ReceiptOf(key: string, row: KeyRow): CommitReceipt {
    CommitReceipt(row.eventId, row.sequence, row.eventHash, key, row.requestHash)
  }

  /** The state of the commit loop. */
  datatype Batch = Batch(
    tables: Tables, head: Snapshot, nextSequence: int,
    previousHash: Option<Hash>, previousSignature: Option<Hash>,
    committed: seq<HarnessEvent>, receipts: seq<CommitReceipt>)

  /** The event that the store makes of the i-th proposal of a batch, linked to the event before it. */
  function Seal(
    sequence: int, previousHash: Option<Hash>, previousSignature: Option<Hash>,
    tid: string, key: Option<string>, p: ProposedEvent, i: int, env: Env): HarnessEvent
  {
    var h := EventHeader(env.ids(i), tid, sequence, p.eventType, CURRENT_EVENT_SCHEMA_VERSION,
                         p.idempotencyKey, p.parentEventId, env.stamps(i), p.actor, p.actionId,
                         previousHash, Literal(""), previousSignature, None);
    var hashed := h.(eventHash := ComputeEventHash(h, PayloadDigest(p.payload)));
    HarnessEvent(hashed.(signature := ComputeSignature(hashed, key)), p.payload, PayloadDigest(p.payload))
  }

  function SealEvent(b: Batch, tid: string, key: Option<string>, p: ProposedEvent, i: int, env: Env): HarnessEvent {
    Seal(b.nextSequence, b.previousHash, b.previousSignature, tid, key, p, i, env)
  }

  /** INSERT INTO harness_events under its three uniqueness constraints. */
  function InsertEvent(t: Tables, tid: string, row: EventRow): Result<Tables, StoreError> {
    var rows := RowsOf(t, tid);
    var h := row.event.header;
    if EventIdTaken(t, h.eventId) then Failure(CommitFailed)
    else if exists i :: 0 <= i < |rows| && (|| rows[i].event.header.sequence == h.sequence
                                            || rows[i].event.header.idempotencyKey == h.idempotencyKey)
    then Failure(CommitFailed)
    else Success(t.(events := t.events[tid := rows + [row]]))
  }

  /** One turn of the commit loop. */
  function CommitOne(
    b: Batch, tid: string, key: Option<string>, p: ProposedEvent, i: int, env: Env): Result<Batch, StoreError>
  {
    var requestHash := ComputeRequestHash(p);
    var keys := KeysOf(b.tables, tid);
    if p.idempotencyKey in keys then
      if keys[p.idempotencyKey].requestHash != requestHash then Failure(IdempotencyConflict)
      else Success(b.(receipts := b.receipts + [ReceiptOf(p.idempotencyKey, keys[p.idempotencyKey])]))
    else
      var e := SealEvent(b, tid, key, p, i, env);
      if !WellFormedEvent(e) then Failure(CommitFailed)
      else
        match ReduceEvent(b.head, e, env.clock(e.header.sequence))
        case Failure(_) => Failure(CommitFailed)
        case Success(next) =>
          var t :- InsertEvent(b.tables, tid, EventRow(e, requestHash));
          var keyRow := KeyRow(requestHash, e.header.eventId, b.nextSequence, e.header.eventHash);
          Success(Batch(
                    t.(keys := t.keys[tid := keys[p.idempotencyKey := keyRow]]),
                    next, b.nextSequence + 1, Some(e.header.eventHash), e.header.signature,
                    b.committed + [e], b.receipts + [ReceiptOf(p.idempotencyKey, keyRow)]))
  }

  function CommitLoop(
    b: Batch, tid: string, key: Option<string>, ps: seq<ProposedEvent>, env: Env): Result<Batch, StoreError>
    decreases |ps|
  {
    if ps == [] then Success(b)
    else
      var prefix :- CommitLoop(b, tid, key, ps[..|ps| - 1], env);
      CommitOne(prefix, tid, key, ps[|ps| - 1], |ps| - 1, env)
  }

  /** The receipts of a batch of which some key is already used: all or an error. */
  function RetryReceipts(keys: map<string, KeyRow>, ps: seq<ProposedEvent>): Result<seq<CommitReceipt>, StoreError>
    decreases |ps|
  {
    if ps == [] then Success([])
    else
      var prefix :- RetryReceipts(keys, ps[..|ps| - 1]);
      var p := ps[|ps| - 1];
      if p.idempotencyKey !in keys then Failure(CommitFailed)
      else if keys[p.idempotencyKey].requestHash != ComputeRequestHash(p) then Failure(IdempotencyConflict)
      else Success(prefix + [ReceiptOf(p.idempotencyKey, keys[p.idempotencyKey])])
  }

  /** The automatic checkpoint after every 50th event. */
  function AutoCheckpoint(t: Tables, tid: string, head: Snapshot): Result<Tables, StoreError> {
    if head.sequence > 0 && head.sequence % 50 == 0 then
      match InsertCheckpoint(t, tid, CheckpointRowFor(head, |RowsOf(t, tid)|, CheckpointId(tid, head.sequence)))
      case Success(u) => Success(u)
      case Failure(_) => Failure(CommitFailed)
    else Success(t)
  }

  predicate SomeKeyUsed(keys: map<string, KeyRow>, ps: seq<ProposedEvent>) {
    exists i :: 0 <= i < |ps| && ps[i].idempotencyKey in keys
  }

  function StartBatch(t: Tables, head: Snapshot): Batch {
    Batch(t, head, head.sequence + 1, head.lastEventHash, head.lastSignature, [], [])
  }

  /** commit_events: the tables after the transaction, and what the caller gets. */
  function Commit(
    t: Tables, key: Option<string>, tid: string, expectedSequence: int, expectedHash: Option<Hash>,
    ps: seq<ProposedEvent>, env: Env): (Tables, Result<CommitResult, StoreError>)
  {
    if ps == [] then (t, Failure(NoProposals))
    else
      match LoadHead(t, key, tid, env.clock)
      case Failure(_) => (t, Failure(CommitFailed))
      case Success(head) =>
        if SomeKeyUsed(KeysOf(t, tid), ps) then
          match RetryReceipts(KeysOf(t, tid), ps)
          case Failure(error) => (t, Failure(error))
          case Success(receipts) =>
            (t, Success(CommitResult(tid, head.sequence, head.sequence, head.lastEventHash, [], receipts)))
        else if head.sequence != expectedSequence || head.lastEventHash != expectedHash then (t, Failure(StaleContext))
        else
          match CommitLoop(StartBatch(t, head), tid, key, ps, env)
          case Failure(error) => (t, Failure(error))
          case Success(b) =>
            match AutoCheckpoint(b.tables, tid, b.head)
            case Failure(error) => (t, Failure(error))
            case Success(u) => (u, Success(ResultOf(tid, b)))
  }

  function ResultOf(tid: string, b: Batch): CommitResult {
    CommitResult(tid, if b.committed != [] then b.committed[0].header.sequence else b.head.sequence,
                 b.head.sequence, b.head.lastEventHash, b.committed, b.receipts)
  }
}
