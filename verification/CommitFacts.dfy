/** What commit_events does to the tables: all of a batch or nothing, once per key. */
module CommitFacts {
  import opened Results
  import opened Schema
  import opened Reducer
  import opened FoldFacts
  import opened ClockIndependence
  import opened Consistency
  import opened StoreTables
  import opened StoreFacts
  import opened Subsequences

  predicate KeyAmong(ps: seq<ProposedEvent>, k: string) {
    exists i :: 0 <= i < |ps| && ps[i].idempotencyKey == k
  }

  /** The proposals of a batch that get an event: the first one for each key, in order. */
  function NewProposals(ps: seq<ProposedEvent>): seq<ProposedEvent> {
    if ps == [] then []
    else
      var init, p := ps[..|ps| - 1], ps[|ps| - 1];
      if KeyAmong(init, p.idempotencyKey) then NewProposals(init) else NewProposals(init) + [p]
  }

  /** The positions of these proposals. */
  function NewIndices(ps: seq<ProposedEvent>): seq<nat> {
    if ps == [] then []
    else
      var init := ps[..|ps| - 1];
      if KeyAmong(init, ps[|ps| - 1].idempotencyKey) then NewIndices(init) else NewIndices(init) + [|init|]
  }

  /** The proposals that are the first ones with their key. */
  ghost predicate FirstUses(ps: seq<ProposedEvent>, ks: seq<nat>, r: seq<ProposedEvent>) {
    && PickedAt(ps, ks, r)
    && forall k :: 0 <= k < |ps| ==>
         (k in ks <==> forall i :: 0 <= i < k ==> ps[i].idempotencyKey != ps[k].idempotencyKey)
  }

  lemma FirstUsesStep(ps: seq<ProposedEvent>, ks: seq<nat>, r: seq<ProposedEvent>, p: ProposedEvent)
    requires FirstUses(ps, ks, r)
    ensures var new_ := !KeyAmong(ps, p.idempotencyKey);
      FirstUses(ps + [p], if new_ then ks + [|ps|] else ks, if new_ then r + [p] else r)
  {
    hide PickedAt;
    var all := ps + [p];
    PickNext(ps, ks, r, p, !KeyAmong(ps, p.idempotencyKey));
    assert forall i :: 0 <= i < |ps| ==> all[i] == ps[i];
  }

  /** A proposal gets an event exactly if no earlier one has its key. */
  lemma {:induction false} NewProposalsExact(ps: seq<ProposedEvent>)
    ensures FirstUses(ps, NewIndices(ps), NewProposals(ps))
    decreases |ps|
  {
    hide FirstUses, KeyAmong;
    if ps == [] {
      FirstUsesNone();
    } else {
      var init, p := ps[..|ps| - 1], ps[|ps| - 1];
      assert ps == init + [p];
      NewProposalsExact(init);
      FirstUsesStep(init, NewIndices(init), NewProposals(init), p);
    }
  }

  lemma FirstUsesNone()
    ensures FirstUses([], [], [])
  {
  }

  /** Each row has the id and the time that the environment gave for its proposal, and the current schema. */
  ghost predicate StampedBy(rows: seq<EventRow>, ps: seq<ProposedEvent>, env: Env) {
    && |rows| == |NewIndices(ps)|
    && forall j :: 0 <= j < |rows| ==>
         var h := rows[j].event.header;
         h.eventId == env.ids(NewIndices(ps)[j]) && h.createdAt == env.stamps(NewIndices(ps)[j]) && h.schemaVersion == 3
  }

  /** The row holds the event that answers the proposal. */
  ghost predicate Carries(row: EventRow, p: ProposedEvent, tid: string, sequence: int) {
    var h := row.event.header;
    && h.trajectoryId == tid && h.sequence == sequence
    && h.eventType == p.eventType && row.event.payload == p.payload
    && h.idempotencyKey == p.idempotencyKey && h.actor == p.actor && h.actionId == p.actionId
    && h.parentEventId == p.parentEventId
    && row.requestHash == ComputeRequestHash(p)
  }

  ghost predicate AllCarry(rows: seq<EventRow>, ps: seq<ProposedEvent>, tid: string, base: int) {
    && |rows| == |ps|
    && forall i :: 0 <= i < |rows| ==> Carries(rows[i], ps[i], tid, base + i + 1)
  }

  /** The receipts name, for each proposal in turn, the row that the key table has for its key. */
  ghost predicate ReceiptsMatch(receipts: seq<CommitReceipt>, ps: seq<ProposedEvent>, keys: map<string, KeyRow>) {
    && |receipts| == |ps|
    && forall i :: 0 <= i < |ps| ==>
         var k := ps[i].idempotencyKey;
         k in keys && keys[k].requestHash == ComputeRequestHash(ps[i]) && receipts[i] == ReceiptOf(k, keys[k])
  }

  /** The new rows, in their place in the tables, carry the new proposals. */
  ghost predicate BatchRows(b: Batch, added: seq<EventRow>, t: Tables, tid: string, ps: seq<ProposedEvent>) {
    var rows, keys := RowsOf(b.tables, tid), KeysOf(b.tables, tid);
    && rows == RowsOf(t, tid) + added
    && (b.tables == t || b.tables == t.(events := t.events[tid := rows], keys := t.keys[tid := keys]))
    && (added != [] || b.tables == t)
    && b.committed == Events(added)
    && AllCarry(added, NewProposals(ps), tid, |RowsOf(t, tid)|)
  }

  /** The head is the fold of the new events, and the next event will link to it. */
  ghost predicate BatchHead(b: Batch, tid: string, key: Option<string>, head: Snapshot, env: Env) {
    && Fold(head, b.committed, env.clock) == Success(b.head)
    && b.nextSequence == b.head.sequence + 1 == |RowsOf(b.tables, tid)| + 1
    && b.previousHash == b.head.lastEventHash
    && b.previousSignature == b.head.lastSignature
    && Authentic(b.committed, key)
  }

  /** The key table has grown by the keys of the batch and backs every receipt. */
  ghost predicate BatchKeys(b: Batch, t: Tables, tid: string, ps: seq<ProposedEvent>) {
    var keys := KeysOf(b.tables, tid);
    && KeysMatch(RowsOf(b.tables, tid), keys)
    && (forall k :: k in keys <==> k in KeysOf(t, tid) || KeyAmong(ps, k))
    && (forall k :: k in KeysOf(t, tid) ==> k in keys && keys[k] == KeysOf(t, tid)[k])
    && ReceiptsMatch(b.receipts, ps, keys)
  }

  /** What the commit loop keeps after the proposals ps: `added` are the new rows of the trajectory. */
  ghost predicate BatchOk(
    b: Batch, added: seq<EventRow>, t: Tables, tid: string, key: Option<string>, head: Snapshot,
    ps: seq<ProposedEvent>, env: Env)
  {
    && BatchRows(b, added, t, tid, ps) && BatchHead(b, tid, key, head, env) && BatchKeys(b, t, tid, ps)
    && StampedBy(added, ps, env)
  }

  lemma KeyAmongSnoc(ps: seq<ProposedEvent>, p: ProposedEvent, k: string)
    ensures KeyAmong(ps + [p], k) <==> KeyAmong(ps, k) || p.idempotencyKey == k
  {
    if KeyAmong(ps, k) {
      var i :| 0 <= i < |ps| && ps[i].idempotencyKey == k;
      assert (ps + [p])[i].idempotencyKey == k;
    }
    if p.idempotencyKey == k {
      assert (ps + [p])[|ps|].idempotencyKey == k;
    }
    if KeyAmong(ps + [p], k) {
      var i :| 0 <= i < |ps + [p]| && (ps + [p])[i].idempotencyKey == k;
      assert i < |ps| ==> ps[i].idempotencyKey == k;
    }
  }

  lemma ReceiptsSnoc(
    receipts: seq<CommitReceipt>, ps: seq<ProposedEvent>, old_: map<string, KeyRow>,
    p: ProposedEvent, keys: map<string, KeyRow>)
    requires ReceiptsMatch(receipts, ps, old_)
    requires forall k :: k in old_ ==> k in keys && keys[k] == old_[k]
    requires p.idempotencyKey in keys && keys[p.idempotencyKey].requestHash == ComputeRequestHash(p)
    ensures ReceiptsMatch(receipts + [ReceiptOf(p.idempotencyKey, keys[p.idempotencyKey])], ps + [p], keys)
  {
  }

  /** Appending a row for an unused key keeps the key table a bijection. */
  lemma KeysMatchSnoc(rows: seq<EventRow>, keys: map<string, KeyRow>, row: EventRow)
    requires KeysMatch(rows, keys) && row.event.header.idempotencyKey !in keys
    ensures var h := row.event.header;
      KeysMatch(rows + [row],
                keys[h.idempotencyKey := KeyRow(row.requestHash, h.eventId, |rows| + 1, h.eventHash)])
  {
    var h := row.event.header;
    var rows' := rows + [row];
    var keys' := keys[h.idempotencyKey := KeyRow(row.requestHash, h.eventId, |rows| + 1, h.eventHash)];
    forall i | 0 <= i < |rows'| ensures RowHasKey(rows', keys', i) {
      if i < |rows| { assert RowHasKey(rows, keys, i); }
    }
    forall k | k in keys' ensures KeyHasRow(rows', keys', k) {
      if k != h.idempotencyKey { assert KeyHasRow(rows, keys, k); }
    }
  }

  /** A proposal whose key the batch or the table already has: only a receipt is added. */
  lemma RepeatedKeyStep(
    b: Batch, added: seq<EventRow>, t: Tables, tid: string, key: Option<string>, head: Snapshot,
    ps: seq<ProposedEvent>, p: ProposedEvent, env: Env)
    requires BatchOk(b, added, t, tid, key, head, ps, env)
    requires !SomeKeyUsed(KeysOf(t, tid), ps + [p])
    requires p.idempotencyKey in KeysOf(b.tables, tid)
    requires CommitOne(b, tid, key, p, |ps|, env).Success?
    ensures BatchOk(CommitOne(b, tid, key, p, |ps|, env).value, added, t, tid, key, head, ps + [p], env)
  {
    hide Fold, Authentic, KeysMatch, AllCarry, SealEvent, ReceiptsMatch, KeyAmong, Events;
    var keys := KeysOf(b.tables, tid);
    assert (ps + [p])[|ps|] == p;
    assert p.idempotencyKey !in KeysOf(t, tid);
    ReceiptsSnoc(b.receipts, ps, keys, p, keys);
    forall k ensures k in keys <==> k in KeysOf(t, tid) || KeyAmong(ps + [p], k) {
      KeyAmongSnoc(ps, p, k);
    }
    assert (ps + [p])[..|ps|] == ps;
    assert NewProposals(ps + [p]) == NewProposals(ps) && NewIndices(ps + [p]) == NewIndices(ps);
  }

  lemma FoldSnoc(s: Snapshot, log: seq<HarnessEvent>, e: HarnessEvent, clock: Clock)
    requires Fold(s, log, clock).Success?
    ensures Fold(s, log + [e], clock) == ReduceEvent(Fold(s, log, clock).value, e, clock(e.header.sequence))
  {
    hide ReduceEvent;
    assert (log + [e])[..|log + [e]| - 1] == log;
  }

  lemma SealedEvent(b: Batch, tid: string, key: Option<string>, p: ProposedEvent, i: int, env: Env)
    ensures var e := SealEvent(b, tid, key, p, i, env); var h := e.header;
      && VerifySignature(h, key)
      && h.trajectoryId == tid && h.sequence == b.nextSequence
      && h.eventType == p.eventType && e.payload == p.payload && h.idempotencyKey == p.idempotencyKey
      && h.actor == p.actor && h.actionId == p.actionId && h.parentEventId == p.parentEventId
      && h.eventId == env.ids(i) && h.createdAt == env.stamps(i) && h.schemaVersion == 3
  {
  }

  /** What one turn with a new key does to the loop state. */
  lemma NewKeyTurn(b: Batch, tid: string, key: Option<string>, p: ProposedEvent, i: int, env: Env)
    requires p.idempotencyKey !in KeysOf(b.tables, tid)
    requires CommitOne(b, tid, key, p, i, env).Success?
    ensures var e := SealEvent(b, tid, key, p, i, env);
      var keyRow := KeyRow(ComputeRequestHash(p), e.header.eventId, b.nextSequence, e.header.eventHash);
      var rows := RowsOf(b.tables, tid) + [EventRow(e, ComputeRequestHash(p))];
      var keys := KeysOf(b.tables, tid)[p.idempotencyKey := keyRow];
      var r := ReduceEvent(b.head, e, env.clock(e.header.sequence));
      && r.Success? && WellFormedEvent(e)
      && CommitOne(b, tid, key, p, i, env) ==
         Success(Batch(b.tables.(events := b.tables.events[tid := rows], keys := b.tables.keys[tid := keys]), r.value,
                       b.nextSequence + 1, Some(e.header.eventHash), e.header.signature,
                       b.committed + [e], b.receipts + [ReceiptOf(p.idempotencyKey, keyRow)]))
  {
    hide ReduceEvent, SealEvent, WellFormedEvent, EventIdTaken;
  }

  lemma NewKeyHead(
    b: Batch, tid: string, key: Option<string>, head: Snapshot, p: ProposedEvent, i: int, env: Env)
    requires BatchHead(b, tid, key, head, env)
    requires p.idempotencyKey !in KeysOf(b.tables, tid)
    requires CommitOne(b, tid, key, p, i, env).Success?
    ensures BatchHead(CommitOne(b, tid, key, p, i, env).value, tid, key, head, env)
  {
    hide Fold, ReduceEvent, SealEvent, WellFormedEvent, VerifySignature, CommitOne;
    var e := SealEvent(b, tid, key, p, i, env);
    NewKeyTurn(b, tid, key, p, i, env);
    SealedEvent(b, tid, key, p, i, env);
    FoldSnoc(head, b.committed, e, env.clock);
    ReduceEnvelope(b.head, e, env.clock(e.header.sequence));
  }

  lemma NewKeyRows(
    b: Batch, added: seq<EventRow>, t: Tables, tid: string, key: Option<string>,
    ps: seq<ProposedEvent>, p: ProposedEvent, env: Env)
    requires BatchRows(b, added, t, tid, ps) && b.nextSequence == |RowsOf(b.tables, tid)| + 1
    requires p.idempotencyKey !in KeysOf(b.tables, tid) && !KeyAmong(ps, p.idempotencyKey)
    requires CommitOne(b, tid, key, p, |ps|, env).Success?
    ensures var row := EventRow(SealEvent(b, tid, key, p, |ps|, env), ComputeRequestHash(p));
      BatchRows(CommitOne(b, tid, key, p, |ps|, env).value, added + [row], t, tid, ps + [p])
  {
    hide ReduceEvent, SealEvent, WellFormedEvent, VerifySignature, CommitOne, KeyAmong, ComputeRequestHash, AllCarry,
      NewProposals;
    var e := SealEvent(b, tid, key, p, |ps|, env);
    NewKeyTurn(b, tid, key, p, |ps|, env);
    SealedEvent(b, tid, key, p, |ps|, env);
    var row := EventRow(e, ComputeRequestHash(p));
    assert RowsOf(b.tables, tid) + [row] == RowsOf(t, tid) + (added + [row]);
    EventsSnoc(added, row);
    NewProposalsSnoc(ps, p);
    AllCarrySnoc(added, NewProposals(ps), row, p, tid, |RowsOf(t, tid)|);
  }

  lemma EventsSnoc(rows: seq<EventRow>, row: EventRow)
    ensures Events(rows + [row]) == Events(rows) + [row.event]
  {
  }

  lemma NewProposalsSnoc(ps: seq<ProposedEvent>, p: ProposedEvent)
    requires !KeyAmong(ps, p.idempotencyKey)
    ensures NewProposals(ps + [p]) == NewProposals(ps) + [p] && NewIndices(ps + [p]) == NewIndices(ps) + [|ps|]
  {
    hide KeyAmong;
    assert (ps + [p])[..|ps|] == ps;
  }

  lemma AllCarrySnoc(
    rows: seq<EventRow>, ps: seq<ProposedEvent>, row: EventRow, p: ProposedEvent, tid: string, base: int)
    requires AllCarry(rows, ps, tid, base) && Carries(row, p, tid, base + |rows| + 1)
    ensures AllCarry(rows + [row], ps + [p], tid, base)
  {
    hide Carries;
  }

  lemma NewKeyKeys(
    b: Batch, t: Tables, tid: string, key: Option<string>, ps: seq<ProposedEvent>, p: ProposedEvent, env: Env)
    requires BatchKeys(b, t, tid, ps) && b.nextSequence == |RowsOf(b.tables, tid)| + 1
    requires p.idempotencyKey !in KeysOf(b.tables, tid)
    requires CommitOne(b, tid, key, p, |ps|, env).Success?
    ensures BatchKeys(CommitOne(b, tid, key, p, |ps|, env).value, t, tid, ps + [p])
  {
    hide ReduceEvent, SealEvent, WellFormedEvent, VerifySignature, CommitOne, KeyAmong, KeysMatch, ReceiptsMatch;
    var e := SealEvent(b, tid, key, p, |ps|, env);
    NewKeyTurn(b, tid, key, p, |ps|, env);
    SealedEvent(b, tid, key, p, |ps|, env);
    var b' := CommitOne(b, tid, key, p, |ps|, env).value;
    var keys, keys' := KeysOf(b.tables, tid), KeysOf(b'.tables, tid);
    KeysMatchSnoc(RowsOf(b.tables, tid), keys, EventRow(e, ComputeRequestHash(p)));
    ReceiptsSnoc(b.receipts, ps, keys, p, keys');
    forall k ensures k in keys' <==> k in KeysOf(t, tid) || KeyAmong(ps + [p], k) {
      KeyAmongSnoc(ps, p, k);
    }
  }

  lemma NewKeyUnused(b: Batch, t: Tables, tid: string, ps: seq<ProposedEvent>, p: ProposedEvent)
    requires BatchKeys(b, t, tid, ps) && p.idempotencyKey !in KeysOf(b.tables, tid)
    ensures !KeyAmong(ps, p.idempotencyKey)
  {
    hide KeyAmong, KeysMatch, ReceiptsMatch;
  }

  /** A proposal with a new key: one row, one key, one receipt. */
  lemma NewKeyStep(
    b: Batch, added: seq<EventRow>, t: Tables, tid: string, key: Option<string>, head: Snapshot,
    ps: seq<ProposedEvent>, p: ProposedEvent, env: Env)
    requires BatchOk(b, added, t, tid, key, head, ps, env)
    requires p.idempotencyKey !in KeysOf(b.tables, tid)
    requires CommitOne(b, tid, key, p, |ps|, env).Success?
    ensures var e := SealEvent(b, tid, key, p, |ps|, env);
      BatchOk(CommitOne(b, tid, key, p, |ps|, env).value, added + [EventRow(e, ComputeRequestHash(p))],
              t, tid, key, head, ps + [p], env)
  {
    hide CommitOne, Fold, SealEvent, KeysMatch, ReceiptsMatch, AllCarry, Authentic, NewIndices, KeyAmong, BatchRows;
    NewKeyUnused(b, t, tid, ps, p);
    SealedEvent(b, tid, key, p, |ps|, env);
    NewProposalsSnoc(ps, p);
    NewKeyHead(b, tid, key, head, p, |ps|, env);
    NewKeyRows(b, added, t, tid, key, ps, p, env);
    NewKeyKeys(b, t, tid, key, ps, p, env);
  }

  lemma EmptyBatchOk(t: Tables, tid: string, key: Option<string>, head: Snapshot, env: Env)
    requires KeysMatch(RowsOf(t, tid), KeysOf(t, tid)) && head.sequence == |RowsOf(t, tid)|
    ensures BatchOk(StartBatch(t, head), [], t, tid, key, head, [], env)
  {
    hide KeysMatch;
    assert RowsOf(t, tid) + [] == RowsOf(t, tid);
    assert Events([]) == [];
  }

  lemma FreshKeysInit(keys: map<string, KeyRow>, ps: seq<ProposedEvent>)
    requires ps != [] && !SomeKeyUsed(keys, ps)
    ensures !SomeKeyUsed(keys, ps[..|ps| - 1]) && ps == ps[..|ps| - 1] + [ps[|ps| - 1]]
  {
    var init := ps[..|ps| - 1];
    assert forall i :: 0 <= i < |init| ==> init[i] == ps[i];
  }

  /** The commit loop keeps BatchOk. */
  lemma {:induction false} LoopKeepsBatchOk(
    t: Tables, tid: string, key: Option<string>, head: Snapshot, ps: seq<ProposedEvent>, env: Env)
    returns (added: seq<EventRow>)
    requires KeysMatch(RowsOf(t, tid), KeysOf(t, tid))
    requires head.sequence == |RowsOf(t, tid)|
    requires !SomeKeyUsed(KeysOf(t, tid), ps)
    requires CommitLoop(StartBatch(t, head), tid, key, ps, env).Success?
    ensures BatchOk(CommitLoop(StartBatch(t, head), tid, key, ps, env).value, added, t, tid, key, head, ps, env)
    decreases |ps|
  {
    hide CommitOne, KeysMatch, BatchOk, SomeKeyUsed, StartBatch;
    if ps == [] {
      added := [];
      EmptyBatchOk(t, tid, key, head, env);
    } else {
      var init, p := ps[..|ps| - 1], ps[|ps| - 1];
      FreshKeysInit(KeysOf(t, tid), ps);
      added := LoopKeepsBatchOk(t, tid, key, head, init, env);
      var b := CommitLoop(StartBatch(t, head), tid, key, init, env).value;
      if p.idempotencyKey in KeysOf(b.tables, tid) {
        RepeatedKeyStep(b, added, t, tid, key, head, init, p, env);
      } else {
        NewKeyStep(b, added, t, tid, key, head, init, p, env);
        added := added + [EventRow(SealEvent(b, tid, key, p, |init|, env), ComputeRequestHash(p))];
      }
    }
  }

  // ----- errors in a loop are final -----

  lemma {:induction false} CommitLoopFails(
    b: Batch, tid: string, key: Option<string>, ps: seq<ProposedEvent>, i: nat, env: Env)
    requires i <= |ps| && CommitLoop(b, tid, key, ps[..i], env).Failure?
    ensures CommitLoop(b, tid, key, ps, env) == CommitLoop(b, tid, key, ps[..i], env)
    decreases |ps|
  {
    hide CommitOne;
    if i == |ps| {
      assert ps[..i] == ps;
    } else {
      assert ps[..|ps| - 1][..i] == ps[..i];
      CommitLoopFails(b, tid, key, ps[..|ps| - 1], i, env);
    }
  }

  lemma {:induction false} RetryReceiptsFail(keys: map<string, KeyRow>, ps: seq<ProposedEvent>, i: nat)
    requires i <= |ps| && RetryReceipts(keys, ps[..i]).Failure?
    ensures RetryReceipts(keys, ps) == RetryReceipts(keys, ps[..i])
    decreases |ps|
  {
    if i == |ps| {
      assert ps[..i] == ps;
    } else {
      assert ps[..|ps| - 1][..i] == ps[..i];
      RetryReceiptsFail(keys, ps[..|ps| - 1], i);
    }
  }

  // ----- the outcome of a commit -----

  ghost predicate SameElsewhere(t: Tables, u: Tables, tid: string) {
    && u.trajectories == t.trajectories
    && forall other :: other != tid ==>
         RowsOf(u, other) == RowsOf(t, other) && KeysOf(u, other) == KeysOf(t, other)
           && CheckpointsOf(u, other) == CheckpointsOf(t, other)
  }

  /** One row per new key, in order, numbered on from the old head; the result names exactly these. */
  ghost predicate RowsAppended(
    old_: seq<EventRow>, rows: seq<EventRow>, tid: string, ps: seq<ProposedEvent>, r: CommitResult)
  {
    && r.trajectoryId == tid
    && |old_| < |rows| && rows[..|old_|] == old_
    && AllCarry(rows[|old_|..], NewProposals(ps), tid, |old_|)
    && r.committedEvents == Events(rows[|old_|..])
    && r.firstSequence == |old_| + 1 && r.lastSequence == |rows|
    && r.headHash == Some(rows[|rows| - 1].event.header.eventHash)
  }

  /** The key table grows by the keys of the batch, and each proposal gets the receipt of its key. */
  ghost predicate KeysAppended(
    old_: map<string, KeyRow>, keys: map<string, KeyRow>, ps: seq<ProposedEvent>, r: CommitResult)
  {
    && (forall k :: k in keys <==> k in old_ || KeyAmong(ps, k))
    && (forall k :: k in old_ ==> k in keys && keys[k] == old_[k])
    && ReceiptsMatch(r.receipts, ps, keys)
  }

  /** One more checkpoint, of the new head, if the new head is a multiple of 50. */
  ghost predicate CheckpointAppended(old_: seq<CheckpointRow>, checkpoints: seq<CheckpointRow>, n: nat) {
    if n % 50 == 0 then exists row :: checkpoints == old_ + [row] && row.sequence == n else checkpoints == old_
  }

  /** The tables after a batch that was appended. */
  ghost predicate Appends(t: Tables, u: Tables, tid: string, ps: seq<ProposedEvent>, r: CommitResult) {
    && RowsAppended(RowsOf(t, tid), RowsOf(u, tid), tid, ps, r)
    && KeysAppended(KeysOf(t, tid), KeysOf(u, tid), ps, r)
    && CheckpointAppended(CheckpointsOf(t, tid), CheckpointsOf(u, tid), |RowsOf(u, tid)|)
    && SameElsewhere(t, u, tid)
  }

  /** The key table answers this very request. */
  predicate KeyAnswers(keys: map<string, KeyRow>, p: ProposedEvent) {
    p.idempotencyKey in keys && keys[p.idempotencyKey].requestHash == ComputeRequestHash(p)
  }

  lemma RetryReceiptsStep(keys: map<string, KeyRow>, init: seq<ProposedEvent>, p: ProposedEvent)
    ensures RetryReceipts(keys, init + [p]).Success? <==> RetryReceipts(keys, init).Success? && KeyAnswers(keys, p)
    ensures var r := RetryReceipts(keys, init + [p]);
      r.Success? ==>
        r.value == RetryReceipts(keys, init).value + [ReceiptOf(p.idempotencyKey, keys[p.idempotencyKey])]
  {
    hide ComputeRequestHash, ReceiptOf;
    assert (init + [p])[..|init|] == init;
  }

  lemma {:induction false} RetryReceiptsIff(keys: map<string, KeyRow>, ps: seq<ProposedEvent>)
    ensures RetryReceipts(keys, ps).Success? <==> forall i :: 0 <= i < |ps| ==> KeyAnswers(keys, ps[i])
    ensures RetryReceipts(keys, ps).Success? ==> ReceiptsMatch(RetryReceipts(keys, ps).value, ps, keys)
    decreases |ps|
  {
    if ps == [] {
    } else {
      hide RetryReceipts, KeyAnswers, ReceiptsMatch, ComputeRequestHash, ReceiptOf;
      var init, p := ps[..|ps| - 1], ps[|ps| - 1];
      assert init + [p] == ps;
      RetryReceiptsIff(keys, init);
      RetryReceiptsStep(keys, init, p);
      if RetryReceipts(keys, init + [p]).Success? {
        RetryReceiptsSnoc(keys, init, p, RetryReceipts(keys, init).value);
      }
    }
  }

  lemma RetryReceiptsSnoc(
    keys: map<string, KeyRow>, init: seq<ProposedEvent>, p: ProposedEvent, receipts: seq<CommitReceipt>)
    requires ReceiptsMatch(receipts, init, keys) && KeyAnswers(keys, p)
    ensures ReceiptsMatch(receipts + [ReceiptOf(p.idempotencyKey, keys[p.idempotencyKey])], init + [p], keys)
  {
    hide ReceiptsMatch, ReceiptOf, ComputeRequestHash;
    ReceiptsSnoc(receipts, init, keys, p, keys);
  }

  lemma {:induction false} NewProposalsNonempty(ps: seq<ProposedEvent>)
    requires ps != []
    ensures NewProposals(ps) != []
    decreases |ps|
  {
    if |ps| > 1 {
      NewProposalsNonempty(ps[..|ps| - 1]);
    }
  }

  /** Growing a valid trajectory by the rows of a batch keeps it valid. */
  lemma GrownTrajectoryValid(
    t: Tables, u: Tables, tid: string, key: Option<string>, head: Snapshot, added: seq<EventRow>,
    ps: seq<ProposedEvent>, clock: Clock, next: Snapshot)
    requires ValidTrajectory(t, key, tid)
    requires FoldsTo(Genesis(t, tid), Log(t, tid), head)
    requires RowsOf(u, tid) == RowsOf(t, tid) + added && CheckpointsOf(u, tid) == CheckpointsOf(t, tid)
    requires Fold(head, Events(added), clock) == Success(next)
    requires Authentic(Events(added), key)
    requires AllCarry(added, NewProposals(ps), tid, |RowsOf(t, tid)|)
    requires KeysMatch(RowsOf(u, tid), KeysOf(u, tid))
    ensures ValidTrajectory(u, key, tid)
    ensures FoldsTo(Genesis(t, tid), Log(u, tid), next)
  {
    hide Fold, FoldsTo, KeysMatch, WellFormedEvent, VerifySignature, FreshSnapshot, CheckpointRowFor, AllCarry,
      RequestHashed;
    var g := Genesis(t, tid);
    assert Log(u, tid) == Log(t, tid) + Events(added);
    FoldsToExtend(g, Log(t, tid), head, Events(added), clock, next);
    CarriedRowsHashed(added, NewProposals(ps), tid, |RowsOf(t, tid)|);
    forall i | 0 <= i < |CheckpointsOf(u, tid)|
      ensures ValidCheckpoint(CheckpointsOf(u, tid)[i], g, Log(u, tid))
    {
      var row := CheckpointsOf(u, tid)[i];
      assert ValidCheckpoint(row, g, Log(t, tid));
      assert Log(u, tid)[..row.sequence] == Log(t, tid)[..row.sequence];
    }
    forall i | 0 <= i < |RowsOf(u, tid)| ensures RequestHashed(RowsOf(u, tid)[i]) {
      if i >= |RowsOf(t, tid)| { assert RequestHashed(added[i - |RowsOf(t, tid)|]); }
    }
  }

  lemma CarriedRowsHashed(added: seq<EventRow>, ps: seq<ProposedEvent>, tid: string, base: int)
    requires AllCarry(added, ps, tid, base)
    ensures forall i :: 0 <= i < |added| ==> RequestHashed(added[i])
  {
    forall i | 0 <= i < |added| ensures RequestHashed(added[i]) {
      assert Carries(added[i], ps[i], tid, base + i + 1);
    }
  }

  /** A checkpoint written for the fold of the whole log keeps the trajectory valid, and there is room for it. */
  lemma CheckpointKeepsValid(t: Tables, tid: string, key: Option<string>, s: Snapshot, id: SnapshotId)
    requires ValidTrajectory(t, key, tid) && FoldsTo(Genesis(t, tid), Log(t, tid), s)
    requires InsertCheckpoint(t, tid, CheckpointRowFor(s, |RowsOf(t, tid)|, id)).Success?
    ensures ValidTrajectory(InsertCheckpoint(t, tid, CheckpointRowFor(s, |RowsOf(t, tid)|, id)).value, key, tid)
  {
    hide Fold, FoldsTo, KeysMatch, WellFormedEvent, VerifySignature, FreshSnapshot, RequestHashed;
    FoldsToNumbering(Genesis(t, tid), Log(t, tid), s);
    var row := CheckpointRowFor(s, |RowsOf(t, tid)|, id);
    var u := InsertCheckpoint(t, tid, row).value;
    assert RowsOf(u, tid) == RowsOf(t, tid) && KeysOf(u, tid) == KeysOf(t, tid);
    assert Log(t, tid)[..|Log(t, tid)|] == Log(t, tid);
    assert ValidCheckpoint(row, Genesis(t, tid), Log(t, tid));
    assert Genesis(u, tid) == Genesis(t, tid);
    forall i | 0 <= i < |CheckpointsOf(u, tid)|
      ensures ValidCheckpoint(CheckpointsOf(u, tid)[i], Genesis(u, tid), Log(u, tid))
    {
      if i < |CheckpointsOf(t, tid)| {
        assert CheckpointsOf(u, tid)[i] == CheckpointsOf(t, tid)[i];
      }
    }
  }

  /** A refused commit, and a commit of which some key was used before, leave every table as it was. */
  lemma UnappendedCommit(
    t: Tables, key: Option<string>, tid: string, expectedSequence: int, expectedHash: Option<Hash>,
    ps: seq<ProposedEvent>, env: Env)
    ensures var (u, r) := Commit(t, key, tid, expectedSequence, expectedHash, ps, env);
      && (r.Failure? || SomeKeyUsed(KeysOf(t, tid), ps) ==> u == t)
      && (r.Success? && SomeKeyUsed(KeysOf(t, tid), ps) ==>
            r.value.committedEvents == [] && ReceiptsMatch(r.value.receipts, ps, KeysOf(t, tid)))
  {
    hide LoadHead, CommitLoop, AutoCheckpoint, RetryReceipts, SomeKeyUsed;
    RetryReceiptsIff(KeysOf(t, tid), ps);
  }

  /** The checkpoint step of a commit, on a valid trajectory whose head is `head`. */
  lemma AutoCheckpointStep(t: Tables, tid: string, key: Option<string>, head: Snapshot)
    requires ValidTrajectory(t, key, tid) && FoldsTo(Genesis(t, tid), Log(t, tid), head)
    requires head.sequence > 0
    requires AutoCheckpoint(t, tid, head).Success?
    ensures var u := AutoCheckpoint(t, tid, head).value;
      && ValidTrajectory(u, key, tid)
      && u == t.(checkpoints := u.checkpoints)
      && (forall other :: other != tid ==> CheckpointsOf(u, other) == CheckpointsOf(t, other))
      && CheckpointAppended(CheckpointsOf(t, tid), CheckpointsOf(u, tid), |RowsOf(t, tid)|)
  {
    hide Fold, FoldsTo, ValidTrajectory;
    HeadSequence(t, tid, key, head);
    if head.sequence % 50 == 0 {
      var row := CheckpointRowFor(head, |RowsOf(t, tid)|, CheckpointId(tid, head.sequence));
      CheckpointKeepsValid(t, tid, key, head, CheckpointId(tid, head.sequence));
      assert CheckpointsOf(AutoCheckpoint(t, tid, head).value, tid) == CheckpointsOf(t, tid) + [row];
    }
  }

  lemma HeadSequence(t: Tables, tid: string, key: Option<string>, head: Snapshot)
    requires ValidTrajectory(t, key, tid) && FoldsTo(Genesis(t, tid), Log(t, tid), head)
    ensures head.sequence == |RowsOf(t, tid)|
  {
    hide Fold, FoldsTo, KeysMatch, Authentic, RequestHashed, ValidCheckpoint;
    FoldsToNumbering(Genesis(t, tid), Log(t, tid), head);
  }

  /** A finished loop has grown the trajectory by the rows of the batch and kept it valid. */
  lemma LoopOutcome(
    t: Tables, tid: string, key: Option<string>, head: Snapshot, ps: seq<ProposedEvent>, env: Env)
    returns (added: seq<EventRow>)
    requires ValidTrajectory(t, key, tid) && FoldsTo(Genesis(t, tid), Log(t, tid), head)
    requires ps != [] && !SomeKeyUsed(KeysOf(t, tid), ps)
    requires CommitLoop(StartBatch(t, head), tid, key, ps, env).Success?
    ensures var b := CommitLoop(StartBatch(t, head), tid, key, ps, env).value;
      && BatchOk(b, added, t, tid, key, head, ps, env) && added != []
      && ValidTrajectory(b.tables, key, tid) && FoldsTo(Genesis(b.tables, tid), Log(b.tables, tid), b.head)
  {
    hide Fold, FoldsTo, CommitLoop, ValidTrajectory, SomeKeyUsed, ReceiptsMatch;
    HeadSequence(t, tid, key, head);
    KeysOfValid(t, tid, key);
    added := LoopKeepsBatchOk(t, tid, key, head, ps, env);
    NewProposalsNonempty(ps);
    var b := CommitLoop(StartBatch(t, head), tid, key, ps, env).value;
    GrownTrajectoryValid(t, b.tables, tid, key, head, added, ps, env.clock, b.head);
  }

  lemma KeysOfValid(t: Tables, tid: string, key: Option<string>)
    requires ValidTrajectory(t, key, tid)
    ensures KeysMatch(RowsOf(t, tid), KeysOf(t, tid))
  {
    hide KeysMatch, FoldsTo, Authentic, RequestHashed, ValidCheckpoint, FreshSnapshot;
  }

  /** The result of a finished loop, after the checkpoint step, is an append. */
  lemma FinishedBatchAppends(b: Batch, added: seq<EventRow>, t: Tables, u: Tables, tid: string, ps: seq<ProposedEvent>)
    requires BatchRows(b, added, t, tid, ps) && BatchKeys(b, t, tid, ps) && added != []
    requires b.head.sequence == |RowsOf(b.tables, tid)|
    requires b.head.lastEventHash == Some(b.committed[|b.committed| - 1].header.eventHash)
    requires u == b.tables.(checkpoints := u.checkpoints)
    requires forall other :: other != tid ==> CheckpointsOf(u, other) == CheckpointsOf(b.tables, other)
    requires CheckpointAppended(CheckpointsOf(b.tables, tid), CheckpointsOf(u, tid), |RowsOf(b.tables, tid)|)
    ensures Appends(t, u, tid, ps, ResultOf(tid, b))
  {
    hide BatchKeys, CheckpointAppended, RowsAppended, KeysAppended, BatchRows, SameElsewhere;
    assert RowsOf(u, tid) == RowsOf(b.tables, tid) && KeysOf(u, tid) == KeysOf(b.tables, tid);
    FinishedBatchRows(b, added, t, tid, ps);
    FinishedBatchKeys(b, t, tid, ps);
    FinishedBatchElsewhere(b, added, t, u, tid, ps);
  }

  lemma FinishedBatchKeys(b: Batch, t: Tables, tid: string, ps: seq<ProposedEvent>)
    requires BatchKeys(b, t, tid, ps)
    ensures KeysAppended(KeysOf(t, tid), KeysOf(b.tables, tid), ps, ResultOf(tid, b))
  {
    hide ReceiptsMatch, KeyAmong, KeysMatch;
  }

  lemma FinishedBatchElsewhere(
    b: Batch, added: seq<EventRow>, t: Tables, u: Tables, tid: string, ps: seq<ProposedEvent>)
    requires BatchRows(b, added, t, tid, ps)
    requires u == b.tables.(checkpoints := u.checkpoints)
    requires forall other :: other != tid ==> CheckpointsOf(u, other) == CheckpointsOf(b.tables, other)
    ensures SameElsewhere(t, u, tid) && CheckpointsOf(b.tables, tid) == CheckpointsOf(t, tid)
  {
    hide AllCarry, Events, NewProposals;
  }

  lemma FinishedBatchRows(b: Batch, added: seq<EventRow>, t: Tables, tid: string, ps: seq<ProposedEvent>)
    requires BatchRows(b, added, t, tid, ps) && added != []
    requires b.head.sequence == |RowsOf(b.tables, tid)|
    requires b.head.lastEventHash == Some(b.committed[|b.committed| - 1].header.eventHash)
    ensures RowsAppended(RowsOf(t, tid), RowsOf(b.tables, tid), tid, ps, ResultOf(tid, b))
  {
    hide NewProposals;
    var n := |RowsOf(t, tid)|;
    assert RowsOf(b.tables, tid)[n..] == added && RowsOf(b.tables, tid)[..n] == RowsOf(t, tid);
    assert Carries(added[0], NewProposals(ps)[0], tid, n + 1);
  }

  /** The hash of the last event. */
  function HeadHash(rows: seq<EventRow>): Option<Hash> {
    if rows == [] then None else Some(rows[|rows| - 1].event.header.eventHash)
  }

  lemma HeadLinks(t: Tables, tid: string, key: Option<string>, head: Snapshot)
    requires ValidTrajectory(t, key, tid) && FoldsTo(Genesis(t, tid), Log(t, tid), head)
    ensures head.sequence == |RowsOf(t, tid)| && head.lastEventHash == HeadHash(RowsOf(t, tid))
  {
    hide Fold, FoldsTo, KeysMatch, Authentic, RequestHashed, ValidCheckpoint;
    FoldsToNumbering(Genesis(t, tid), Log(t, tid), head);
  }

  /** A checkpoint row for a snapshot: everything but the signature, whose column stays empty. */
  ghost predicate StoredAs(row: CheckpointRow, s: Snapshot, eventCount: int, id: SnapshotId) {
    && row.snapshotId == id && row.snapshot == s && row.eventCount == eventCount
    && row.trajectoryId == s.trajectoryId && row.epochId == s.epochId && row.sequence == s.sequence
    && row.lastEventHash == s.lastEventHash && row.lastSignature.None?
    && row.stateHash == ComputeStateHash(s)
    && row.checkpointHash == CheckpointDigest(id, s.trajectoryId, s.epochId, s.sequence, ComputeStateHash(s),
                                              s.lastEventHash, s.lastSignature, eventCount)
  }

  lemma RowStoredAs(s: Snapshot, eventCount: int, id: SnapshotId)
    ensures StoredAs(CheckpointRowFor(s, eventCount, id), s, eventCount, id)
  {
    hide ComputeStateHash;
  }

  /** At a multiple of 50 the new head itself is stored. */
  ghost predicate HeadStored(
    t: Tables, u: Tables, key: Option<string>, tid: string, committed: seq<HarnessEvent>, clock: Clock)
    requires AcceptedOnHead(t, key, tid, committed, clock)
  {
    var n, checkpoints := |RowsOf(u, tid)|, CheckpointsOf(u, tid);
    n % 50 == 0 ==>
      checkpoints != []
      && StoredAs(checkpoints[|checkpoints| - 1], Fold(LoadHead(t, key, tid, clock).value, committed, clock).value, n,
                  CheckpointId(tid, n))
  }

  /** The batch was accepted on top of the head that was loaded. */
  ghost predicate AcceptedOnHead(
    t: Tables, key: Option<string>, tid: string, committed: seq<HarnessEvent>, clock: Clock)
  {
    var head := LoadHead(t, key, tid, clock);
    head.Success? && Fold(head.value, committed, clock).Success?
  }

  /** A commit that succeeds with fresh keys found the head it expected, sequence and hash, appended the
    batch, which the reducer accepted on that head, and kept the trajectory valid. */
  lemma AppendedCommit(
    t: Tables, key: Option<string>, tid: string, expectedSequence: int, expectedHash: Option<Hash>,
    ps: seq<ProposedEvent>, env: Env)
    requires tid in t.trajectories ==> ValidTrajectory(t, key, tid)
    requires Commit(t, key, tid, expectedSequence, expectedHash, ps, env).1.Success?
    requires !SomeKeyUsed(KeysOf(t, tid), ps)
    ensures var (u, r) := Commit(t, key, tid, expectedSequence, expectedHash, ps, env);
      && tid in t.trajectories
      && expectedSequence == |RowsOf(t, tid)| && expectedHash == HeadHash(RowsOf(t, tid))
      && Appends(t, u, tid, ps, r.value)
      && StampedBy(RowsOf(u, tid)[|RowsOf(t, tid)|..], ps, env)
      && AcceptedOnHead(t, key, tid, r.value.committedEvents, env.clock)
      && HeadStored(t, u, key, tid, r.value.committedEvents, env.clock)
      && ValidTrajectory(u, key, tid)
  {
    hide LoadHead, CommitLoop, AutoCheckpoint, RetryReceipts, SomeKeyUsed, Fold, FoldsTo, BatchRows, BatchKeys,
      ValidTrajectory, Authentic, Appends, HeadHash;
    LoadHeadNeedsTrajectory(t, key, tid, env.clock);
    LoadHeadIsFold(t, key, tid, env.clock);
    var head := LoadHead(t, key, tid, env.clock).value;
    HeadLinks(t, tid, key, head);
    var added := LoopOutcome(t, tid, key, head, ps, env);
    var b := CommitLoop(StartBatch(t, head), tid, key, ps, env).value;
    HeadSequence(b.tables, tid, key, b.head);
    BatchHeadHash(b, added, t, tid, key, head, ps, env);
    AutoCheckpointStep(b.tables, tid, key, b.head);
    FinishedBatchAppends(b, added, t, AutoCheckpoint(b.tables, tid, b.head).value, tid, ps);
    AddedRows(b, added, t, tid, ps);
    AutoCheckpointStores(b.tables, tid, b.head);
  }

  lemma AutoCheckpointStores(t: Tables, tid: string, head: Snapshot)
    requires AutoCheckpoint(t, tid, head).Success? && head.sequence == |RowsOf(t, tid)| > 0
    ensures var u := AutoCheckpoint(t, tid, head).value; var n, checkpoints := |RowsOf(u, tid)|, CheckpointsOf(u, tid);
      && RowsOf(u, tid) == RowsOf(t, tid)
      && (n % 50 == 0 ==> checkpoints != [] && StoredAs(checkpoints[|checkpoints| - 1], head, n, CheckpointId(tid, n)))
  {
    hide StoredAs, CheckpointRowFor;
    RowStoredAs(head, |RowsOf(t, tid)|, CheckpointId(tid, head.sequence));
  }

  lemma AddedRows(b: Batch, added: seq<EventRow>, t: Tables, tid: string, ps: seq<ProposedEvent>)
    requires BatchRows(b, added, t, tid, ps)
    ensures |RowsOf(t, tid)| <= |RowsOf(b.tables, tid)| && RowsOf(b.tables, tid)[|RowsOf(t, tid)|..] == added
  {
    hide AllCarry, NewProposals;
  }

  lemma BatchHeadHash(
    b: Batch, added: seq<EventRow>, t: Tables, tid: string, key: Option<string>, head: Snapshot,
    ps: seq<ProposedEvent>, env: Env)
    requires BatchOk(b, added, t, tid, key, head, ps, env) && added != []
    ensures |RowsOf(b.tables, tid)| > 0 && b.committed != []
    ensures b.head.lastEventHash == Some(b.committed[|b.committed| - 1].header.eventHash)
  {
    hide Fold, AllCarry, BatchKeys, Authentic;
    FoldNumbering(head, b.committed, env.clock);
  }

  lemma LoadHeadNeedsTrajectory(t: Tables, key: Option<string>, tid: string, clock: Clock)
    ensures LoadHead(t, key, tid, clock).Success? ==> tid in t.trajectories
  {
    hide ValidateCheckpoint, ReplayRows;
  }
}
