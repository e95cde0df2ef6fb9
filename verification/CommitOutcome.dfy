/** Exactly when a commit succeeds, and what it then commits, without the loop that does it. */
module CommitOutcome {
  import opened Results
  import opened Schema
  import opened Reducer
  import opened FoldFacts
  import opened Consistency
  import opened StoreTables
  import opened StoreFacts
  import opened CommitFacts
  import opened Subsequences

  /** The events of a batch: each proposal with a new key gets an event that links to the one before. */
  function SealedBatch(
    head: Snapshot, tid: string, key: Option<string>, ps: seq<ProposedEvent>, env: Env): (events: seq<HarnessEvent>)
    decreases |ps|
  {
    if ps == [] then []
    else
      var init, p := ps[..|ps| - 1], ps[|ps| - 1];
      var before := SealedBatch(head, tid, key, init, env);
      if KeyAmong(init, p.idempotencyKey) then before
      else before + [SealedNext(head, before, tid, key, p, |init|, env)]
  }

  /** The event of the i-th proposal, behind a head and the events `before` it. */
  function SealedNext(
    head: Snapshot, before: seq<HarnessEvent>, tid: string, key: Option<string>, p: ProposedEvent, i: int, env: Env)
    : HarnessEvent
  {
    var n := |before|;
    if n == 0 then Seal(head.sequence + 1, head.lastEventHash, head.lastSignature, tid, key, p, i, env)
    else
      var last := before[n - 1].header;
      Seal(head.sequence + n + 1, Some(last.eventHash), last.signature, tid, key, p, i, env)
  }

  /** Proposals with the same key ask for the same. */
  ghost predicate OneRequestPerKey(ps: seq<ProposedEvent>) {
    forall i, j :: 0 <= i < j < |ps| && ps[i].idempotencyKey == ps[j].idempotencyKey ==>
      ComputeRequestHash(ps[i]) == ComputeRequestHash(ps[j])
  }

  ghost predicate IdAmong(events: seq<HarnessEvent>, id: string) {
    exists i :: 0 <= i < |events| && events[i].header.eventId == id
  }

  /** No event of any trajectory has one of these ids, and they differ from each other. */
  ghost predicate FreshEventIds(t: Tables, events: seq<HarnessEvent>) {
    && (forall i :: 0 <= i < |events| ==> !EventIdTaken(t, events[i].header.eventId))
    && (forall i, j :: 0 <= i < j < |events| ==> events[i].header.eventId != events[j].header.eventId)
  }

  /** The batch asks for one thing per key, its events have free ids, and the reducer accepts them in turn. */
  ghost predicate Committable(
    t: Tables, head: Snapshot, tid: string, key: Option<string>, ps: seq<ProposedEvent>, env: Env)
  {
    var events := SealedBatch(head, tid, key, ps, env);
    OneRequestPerKey(ps) && FreshEventIds(t, events) && Fold(head, events, env.clock).Success?
  }

  // ----- one turn of the loop -----

  lemma IdTakenInBatch(b: Batch, added: seq<EventRow>, t: Tables, tid: string, ps: seq<ProposedEvent>, id: string)
    requires BatchRows(b, added, t, tid, ps)
    ensures EventIdTaken(b.tables, id) <==> EventIdTaken(t, id) || IdAmong(b.committed, id)
  {
    if EventIdTaken(b.tables, id) {
      TakenBeforeOrInBatch(b, added, t, tid, ps, id);
    }
    if EventIdTaken(t, id) || IdAmong(b.committed, id) {
      TakenStaysTaken(b, added, t, tid, ps, id);
    }
  }

  lemma TakenBeforeOrInBatch(
    b: Batch, added: seq<EventRow>, t: Tables, tid: string, ps: seq<ProposedEvent>, id: string)
    requires BatchRows(b, added, t, tid, ps) && EventIdTaken(b.tables, id)
    ensures EventIdTaken(t, id) || IdAmong(b.committed, id)
  {
    hide AllCarry, NewProposals;
    var n := |RowsOf(t, tid)|;
    var x, i :| x in b.tables.events && 0 <= i < |b.tables.events[x]|
                && b.tables.events[x][i].event.header.eventId == id;
    if x == tid && i >= n {
      assert b.committed[i - n].header.eventId == id;
    } else {
      assert RowsOf(t, x)[i] == b.tables.events[x][i];
      assert x in t.events && t.events[x][i].event.header.eventId == id;
    }
  }

  lemma TakenStaysTaken(
    b: Batch, added: seq<EventRow>, t: Tables, tid: string, ps: seq<ProposedEvent>, id: string)
    requires BatchRows(b, added, t, tid, ps) && (EventIdTaken(t, id) || IdAmong(b.committed, id))
    ensures EventIdTaken(b.tables, id)
  {
    hide AllCarry, NewProposals;
    if EventIdTaken(t, id) {
      var x, i :| x in t.events && 0 <= i < |t.events[x]| && t.events[x][i].event.header.eventId == id;
      assert x in b.tables.events && b.tables.events[x][i].event.header.eventId == id;
    } else {
      var i :| 0 <= i < |b.committed| && b.committed[i].header.eventId == id;
      assert RowsOf(b.tables, tid)[|RowsOf(t, tid)| + i].event.header.eventId == id;
      assert tid in b.tables.events;
    }
  }

  lemma BatchNumbered(b: Batch, added: seq<EventRow>, t: Tables, tid: string, ps: seq<ProposedEvent>)
    requires BatchRows(b, added, t, tid, ps) && Numbered(RowsOf(t, tid), 0)
    ensures Numbered(RowsOf(b.tables, tid), 0)
  {
    hide NewProposals;
    var rows, n := RowsOf(b.tables, tid), |RowsOf(t, tid)|;
    forall i | 0 <= i < |rows| ensures rows[i].event.header.sequence == i + 1 {
      if i < n {
        assert rows[i] == RowsOf(t, tid)[i];
      } else {
        assert Carries(added[i - n], NewProposals(ps)[i - n], tid, n + (i - n) + 1);
      }
    }
  }

  /** A new row collides with the rows of the trajectory neither in sequence nor in key. */
  lemma NoRowCollides(rows: seq<EventRow>, keys: map<string, KeyRow>, k: string)
    requires Numbered(rows, 0) && KeysMatch(rows, keys) && k !in keys
    ensures forall i :: 0 <= i < |rows| ==>
              rows[i].event.header.sequence != |rows| + 1 && rows[i].event.header.idempotencyKey != k
  {
    forall i | 0 <= i < |rows|
      ensures rows[i].event.header.sequence != |rows| + 1 && rows[i].event.header.idempotencyKey != k
    {
      assert RowHasKey(rows, keys, i);
    }
  }

  lemma ReducedIsWellFormed(b: Batch, tid: string, key: Option<string>, p: ProposedEvent, i: int, env: Env, now: Time)
    ensures var e := SealEvent(b, tid, key, p, i, env);
      ReduceEvent(b.head, e, now).Success? ==> WellFormedEvent(e)
  {
    hide Handle;
  }

  /** A turn with a new key succeeds exactly when the reducer accepts the event and its id is free. */
  lemma TurnSucceedsIff(
    b: Batch, added: seq<EventRow>, t: Tables, tid: string, key: Option<string>, head: Snapshot,
    ps: seq<ProposedEvent>, p: ProposedEvent, env: Env)
    requires BatchOk(b, added, t, tid, key, head, ps, env) && Numbered(RowsOf(t, tid), 0)
    requires p.idempotencyKey !in KeysOf(b.tables, tid)
    ensures var e := SealEvent(b, tid, key, p, |ps|, env);
      CommitOne(b, tid, key, p, |ps|, env).Success? <==>
      ReduceEvent(b.head, e, env.clock(e.header.sequence)).Success? && !EventIdTaken(b.tables, e.header.eventId)
  {
    hide Fold, ReduceEvent, WellFormedEvent, KeysMatch, ReceiptsMatch, AllCarry, EventIdTaken, SealEvent, Numbered;
    var e := SealEvent(b, tid, key, p, |ps|, env);
    SealedEvent(b, tid, key, p, |ps|, env);
    ReducedIsWellFormed(b, tid, key, p, |ps|, env, env.clock(e.header.sequence));
    BatchNumbered(b, added, t, tid, ps);
    NoRowCollides(RowsOf(b.tables, tid), KeysOf(b.tables, tid), p.idempotencyKey);
  }

  /** What the store seals for a head always fits behind it: only a wrong event type and the handler of
    the event can make the reducer refuse it. */
  lemma SealFitsHead(s: Snapshot, key: Option<string>, p: ProposedEvent, i: int, env: Env, now: Time)
    requires WellChained(s) && (key.Some? && s.sequence > 0 ==> s.lastSignature.Some?)
    ensures var e := Seal(s.sequence + 1, s.lastEventHash, s.lastSignature, s.trajectoryId, key, p, i, env);
      ReduceEvent(s, e, now) ==
      if p.eventType == PayloadTypeName(p.payload) then Handle(s, e, now) else Failure(EventTypeMismatch)
  {
    hide Handle;
    var e := Seal(s.sequence + 1, s.lastEventHash, s.lastSignature, s.trajectoryId, key, p, i, env);
    EnvelopeAcceptedIff(s, e);
  }

  /** In terms of the snapshot after the events before it, the next sealed event links to that snapshot. */
  lemma SealedNextLinks(
    head: Snapshot, before: seq<HarnessEvent>, clock: Clock, tid: string, key: Option<string>, p: ProposedEvent, i: int,
    env: Env)
    requires Fold(head, before, clock).Success?
    ensures var s := Fold(head, before, clock).value;
      SealedNext(head, before, tid, key, p, i, env) ==
      Seal(s.sequence + 1, s.lastEventHash, s.lastSignature, tid, key, p, i, env)
  {
    hide Fold, Seal;
    FoldNumbering(head, before, clock);
  }

  /** The loop seals the event that comes next. */
  lemma SealedByLoop(
    b: Batch, tid: string, key: Option<string>, head: Snapshot, p: ProposedEvent, i: int, env: Env)
    requires BatchHead(b, tid, key, head, env)
    ensures SealEvent(b, tid, key, p, i, env) == SealedNext(head, b.committed, tid, key, p, i, env)
  {
    hide Fold, Authentic, Seal, SealedNext;
    SealedNextLinks(head, b.committed, env.clock, tid, key, p, i, env);
  }

  // ----- the loop -----

  lemma FreshSnoc(t: Tables, events: seq<HarnessEvent>, e: HarnessEvent)
    ensures FreshEventIds(t, events + [e]) <==>
            && FreshEventIds(t, events)
            && !EventIdTaken(t, e.header.eventId) && !IdAmong(events, e.header.eventId)
  {
    hide EventIdTaken;
    var all := events + [e];
    if FreshEventIds(t, all) {
      assert all[|events|] == e;
      assert forall i :: 0 <= i < |events| ==> all[i] == events[i];
    }
  }

  lemma RequestsSnoc(ps: seq<ProposedEvent>, p: ProposedEvent)
    ensures OneRequestPerKey(ps + [p]) <==>
            && OneRequestPerKey(ps)
            && forall i :: 0 <= i < |ps| && ps[i].idempotencyKey == p.idempotencyKey ==>
                 ComputeRequestHash(ps[i]) == ComputeRequestHash(p)
  {
    hide ComputeRequestHash;
    var all := ps + [p];
    if OneRequestPerKey(all) {
      assert all[|ps|] == p;
      assert forall i :: 0 <= i < |ps| ==> all[i] == ps[i];
    }
  }

  lemma FoldSnocIff(s: Snapshot, log: seq<HarnessEvent>, e: HarnessEvent, clock: Clock)
    ensures Fold(s, log + [e], clock).Success? <==>
            && Fold(s, log, clock).Success?
            && ReduceEvent(Fold(s, log, clock).value, e, clock(e.header.sequence)).Success?
  {
    hide ReduceEvent;
    assert (log + [e])[..|log + [e]| - 1] == log;
  }

  lemma SealedSnoc(head: Snapshot, tid: string, key: Option<string>, ps: seq<ProposedEvent>, p: ProposedEvent, env: Env)
    ensures var before := SealedBatch(head, tid, key, ps, env);
      SealedBatch(head, tid, key, ps + [p], env) ==
      if KeyAmong(ps, p.idempotencyKey) then before
      else before + [SealedNext(head, before, tid, key, p, |ps|, env)]
  {
    hide KeyAmong, SealedNext;
    assert (ps + [p])[..|ps|] == ps;
  }

  /** A proposal whose key the batch already has is accepted exactly when it asks for the same. */
  lemma RepeatedTurnIff(
    b: Batch, t: Tables, tid: string, key: Option<string>, ps: seq<ProposedEvent>, p: ProposedEvent, env: Env)
    requires BatchKeys(b, t, tid, ps) && KeyAmong(ps, p.idempotencyKey)
    ensures CommitOne(b, tid, key, p, |ps|, env).Success? <==>
            forall i :: 0 <= i < |ps| && ps[i].idempotencyKey == p.idempotencyKey ==>
              ComputeRequestHash(ps[i]) == ComputeRequestHash(p)
    ensures var r := CommitOne(b, tid, key, p, |ps|, env); r.Success? ==> r.value.committed == b.committed
  {
    hide ComputeRequestHash, KeysMatch, SealEvent, ReduceEvent, WellFormedEvent, InsertEvent;
    var keys := KeysOf(b.tables, tid);
    assert p.idempotencyKey in keys;
    forall i | 0 <= i < |ps| && ps[i].idempotencyKey == p.idempotencyKey
      ensures keys[p.idempotencyKey].requestHash == ComputeRequestHash(ps[i])
    {
    }
  }

  /** One more proposal, on a loop that has come through so far. */
  lemma OneMoreProposal(
    b: Batch, added: seq<EventRow>, t: Tables, tid: string, key: Option<string>, head: Snapshot,
    ps: seq<ProposedEvent>, p: ProposedEvent, env: Env)
    requires BatchOk(b, added, t, tid, key, head, ps, env) && Numbered(RowsOf(t, tid), 0)
    requires p.idempotencyKey !in KeysOf(t, tid)
    requires b.committed == SealedBatch(head, tid, key, ps, env) && Committable(t, head, tid, key, ps, env)
    ensures var r := CommitOne(b, tid, key, p, |ps|, env);
      && (r.Success? <==> Committable(t, head, tid, key, ps + [p], env))
      && (r.Success? ==> r.value.committed == SealedBatch(head, tid, key, ps + [p], env))
  {
    hide CommitOne, Fold, ReduceEvent, SealEvent, SealedNext, SealedBatch, BatchRows, KeyAmong, KeysMatch,
      ReceiptsMatch,
      FreshEventIds, OneRequestPerKey, EventIdTaken, IdAmong, Numbered, Authentic, ComputeRequestHash;
    SealedSnoc(head, tid, key, ps, p, env);
    RequestsSnoc(ps, p);
    if KeyAmong(ps, p.idempotencyKey) {
      RepeatedTurnIff(b, t, tid, key, ps, p, env);
    } else {
      var e := SealEvent(b, tid, key, p, |ps|, env);
      SealedByLoop(b, tid, key, head, p, |ps|, env);
      TurnSucceedsIff(b, added, t, tid, key, head, ps, p, env);
      IdTakenInBatch(b, added, t, tid, ps, e.header.eventId);
      FreshSnoc(t, b.committed, e);
      FoldSnocIff(head, b.committed, e, env.clock);
      NoEarlierRequest(ps, p);
      if CommitOne(b, tid, key, p, |ps|, env).Success? {
        NewKeyTurn(b, tid, key, p, |ps|, env);
      }
    }
  }

  lemma NoEarlierRequest(ps: seq<ProposedEvent>, p: ProposedEvent)
    requires !KeyAmong(ps, p.idempotencyKey)
    ensures forall i :: 0 <= i < |ps| ==> ps[i].idempotencyKey != p.idempotencyKey
  {
  }

  lemma CommittablePrefix(
    t: Tables, head: Snapshot, tid: string, key: Option<string>, ps: seq<ProposedEvent>, p: ProposedEvent, env: Env)
    requires Committable(t, head, tid, key, ps + [p], env)
    ensures Committable(t, head, tid, key, ps, env)
  {
    hide Fold, SealedNext, SealedBatch, KeyAmong, FreshEventIds, OneRequestPerKey;
    var before := SealedBatch(head, tid, key, ps, env);
    var e := SealedNext(head, before, tid, key, p, |ps|, env);
    SealedSnoc(head, tid, key, ps, p, env);
    RequestsSnoc(ps, p);
    FreshSnoc(t, before, e);
    FoldSnocIff(head, before, e, env.clock);
  }

  /** The loop comes through exactly when the batch is committable, and commits the sealed batch. */
  lemma {:induction false} LoopSucceedsIff(
    t: Tables, tid: string, key: Option<string>, head: Snapshot, ps: seq<ProposedEvent>, env: Env)
    requires Numbered(RowsOf(t, tid), 0) && KeysMatch(RowsOf(t, tid), KeysOf(t, tid))
    requires head.sequence == |RowsOf(t, tid)| && !SomeKeyUsed(KeysOf(t, tid), ps)
    ensures var r := CommitLoop(StartBatch(t, head), tid, key, ps, env);
      && (r.Success? <==> Committable(t, head, tid, key, ps, env))
      && (r.Success? ==> r.value.committed == SealedBatch(head, tid, key, ps, env))
    decreases |ps|
  {
    hide CommitOne, Committable, KeysMatch, Numbered, BatchOk;
    if ps == [] {
      EmptyCommittable(t, head, tid, key, env);
    } else {
      var init, p := ps[..|ps| - 1], ps[|ps| - 1];
      assert ps == init + [p] && forall i :: 0 <= i < |init| ==> init[i] == ps[i];
      assert p.idempotencyKey !in KeysOf(t, tid);
      LoopSucceedsIff(t, tid, key, head, init, env);
      var r := CommitLoop(StartBatch(t, head), tid, key, init, env);
      if r.Success? {
        var added := LoopKeepsBatchOk(t, tid, key, head, init, env);
        OneMoreProposal(r.value, added, t, tid, key, head, init, p, env);
      } else if Committable(t, head, tid, key, ps, env) {
        CommittablePrefix(t, head, tid, key, init, p, env);
        assert false;
      }
    }
  }

  lemma EmptyCommittable(t: Tables, head: Snapshot, tid: string, key: Option<string>, env: Env)
    ensures Committable(t, head, tid, key, [], env)
  {
    hide EventIdTaken;
  }

  // ----- the commit -----

  /** The automatic checkpoint of an accepted batch never meets an older checkpoint. */
  lemma AutoCheckpointSucceeds(
    t: Tables, tid: string, key: Option<string>, head: Snapshot, ps: seq<ProposedEvent>, env: Env)
    requires ValidTrajectory(t, key, tid) && FoldsTo(Genesis(t, tid), Log(t, tid), head)
    requires ps != [] && !SomeKeyUsed(KeysOf(t, tid), ps)
    requires CommitLoop(StartBatch(t, head), tid, key, ps, env).Success?
    ensures var b := CommitLoop(StartBatch(t, head), tid, key, ps, env).value;
        AutoCheckpoint(b.tables, tid, b.head).Success?
  {
    hide Fold, FoldsTo, CommitLoop, ValidTrajectory, SomeKeyUsed, BatchKeys, Authentic, AllCarry;
    var added := LoopOutcome(t, tid, key, head, ps, env);
    var b := CommitLoop(StartBatch(t, head), tid, key, ps, env).value;
    HeadSequence(t, tid, key, head);
    CheckpointsWithinLog(t, key, tid);
    FinishedBatchElsewhere(b, added, t, b.tables, tid, ps);
  }

  lemma CheckpointsWithinLog(t: Tables, key: Option<string>, tid: string)
    requires ValidTrajectory(t, key, tid)
    ensures forall q :: q in CheckpointsOf(t, tid) ==> q.sequence <= |RowsOf(t, tid)|
  {
    hide FoldsTo, KeysMatch, Authentic, RequestHashed, FreshSnapshot, Accepted, CheckpointRowFor;
    forall q | q in CheckpointsOf(t, tid) ensures q.sequence <= |RowsOf(t, tid)| {
      var i :| 0 <= i < |CheckpointsOf(t, tid)| && CheckpointsOf(t, tid)[i] == q;
      assert ValidCheckpoint(CheckpointsOf(t, tid)[i], Genesis(t, tid), Log(t, tid));
    }
  }

  /** When commit_events succeeds: the head loads, and either every key was used for the very same request, or
    no key was used, the head is the expected one, and the batch is committable. */
  ghost predicate CommitCondition(
    t: Tables, key: Option<string>, tid: string, expectedSequence: int, expectedHash: Option<Hash>,
    ps: seq<ProposedEvent>, env: Env)
  {
    var head, keys := LoadHead(t, key, tid, env.clock), KeysOf(t, tid);
    && ps != [] && head.Success?
    && if SomeKeyUsed(keys, ps) then forall i :: 0 <= i < |ps| ==> KeyAnswers(keys, ps[i])
       else
         && expectedSequence == |RowsOf(t, tid)| && expectedHash == HeadHash(RowsOf(t, tid))
         && Committable(t, head.value, tid, key, ps, env)
  }

  /** commit_events succeeds exactly then. What it commits is the sealed batch, or nothing for a retry. */
  lemma CommitSucceedsIff(
    t: Tables, key: Option<string>, tid: string, expectedSequence: int, expectedHash: Option<Hash>,
    ps: seq<ProposedEvent>, env: Env)
    requires tid in t.trajectories ==> ValidTrajectory(t, key, tid)
    ensures var r := Commit(t, key, tid, expectedSequence, expectedHash, ps, env).1;
      && (r.Success? <==> CommitCondition(t, key, tid, expectedSequence, expectedHash, ps, env))
      && (r.Success? ==>
            r.value.committedEvents ==
            if SomeKeyUsed(KeysOf(t, tid), ps) then []
            else SealedBatch(LoadHead(t, key, tid, env.clock).value, tid, key, ps, env))
  {
    hide LoadHead, CommitLoop, AutoCheckpoint, RetryReceipts, SomeKeyUsed, Fold, FoldsTo, ValidTrajectory, KeyAnswers,
      Committable, HeadHash, SealedBatch, KeysMatch, Numbered;
    RetryReceiptsIff(KeysOf(t, tid), ps);
    LoadHeadNeedsTrajectory(t, key, tid, env.clock);
    var head := LoadHead(t, key, tid, env.clock);
    if head.Success? {
      LoadHeadIsFold(t, key, tid, env.clock);
      HeadLinks(t, tid, key, head.value);
      if ps != [] && !SomeKeyUsed(KeysOf(t, tid), ps) {
        LogNumbered(t, key, tid);
        KeysOfValid(t, tid, key);
        LoopSucceedsIff(t, tid, key, head.value, ps, env);
        if CommitLoop(StartBatch(t, head.value), tid, key, ps, env).Success? {
          AutoCheckpointSucceeds(t, tid, key, head.value, ps, env);
        }
      }
    }
  }

  // ----- the committed events, without the way they are sealed -----

  /** The event answers the proposal with the given id, time, place and links. */
  ghost predicate AnswersAs(
    e: HarnessEvent, p: ProposedEvent, tid: string, sequence: int, id: string, now: Time,
    previousHash: Option<Hash>, previousSignature: Option<Hash>)
  {
    var h := e.header;
    && h.eventId == id && h.createdAt == now && h.schemaVersion == 3
    && h.trajectoryId == tid && h.sequence == sequence
    && h.eventType == p.eventType && e.payload == p.payload && h.idempotencyKey == p.idempotencyKey
    && h.actor == p.actor && h.actionId == p.actionId && h.parentEventId == p.parentEventId
    && h.previousEventHash == previousHash && h.previousSignature == previousSignature
  }

  /** The j-th event answers the proposal at the j-th position, and links to the event before it. */
  ghost predicate AnswerAt(
    events: seq<HarnessEvent>, j: int, head: Snapshot, tid: string, ks: seq<nat>, ps: seq<ProposedEvent>, env: Env)
    requires 0 <= j < |events| == |ks|
  {
    ks[j] < |ps|
    && AnswersAs(events[j], ps[ks[j]], tid, head.sequence + j + 1, env.ids(ks[j]), env.stamps(ks[j]),
                 if j == 0 then head.lastEventHash else Some(events[j - 1].header.eventHash),
                 if j == 0 then head.lastSignature else events[j - 1].header.signature)
  }

  /** Authentic events that answer, one after the other, the proposals of a batch that are the first ones with
    their key, the i-th with the i-th id and time of the environment. */
  ghost predicate AnswerBatch(
    events: seq<HarnessEvent>, head: Snapshot, tid: string, key: Option<string>, ps: seq<ProposedEvent>, env: Env)
  {
    var ks := NewIndices(ps);
    && |events| == |ks| && Authentic(events, key)
    && forall j :: 0 <= j < |ks| ==> AnswerAt(events, j, head, tid, ks, ps, env)
  }

  lemma SealAnswers(
    sequence: int, previousHash: Option<Hash>, previousSignature: Option<Hash>,
    tid: string, key: Option<string>, p: ProposedEvent, i: int, env: Env)
    ensures var e := Seal(sequence, previousHash, previousSignature, tid, key, p, i, env);
      && AnswersAs(e, p, tid, sequence, env.ids(i), env.stamps(i), previousHash, previousSignature)
      && VerifySignature(e.header, key)
      && (WellFormedEvent(e) <==> p.eventType == PayloadTypeName(p.payload))
  {
  }

  /** The header fields and the key leave no choice. */
  lemma AnswerIsSeal(
    e: HarnessEvent, sequence: int, previousHash: Option<Hash>, previousSignature: Option<Hash>,
    tid: string, key: Option<string>, p: ProposedEvent, i: int, env: Env)
    requires AnswersAs(e, p, tid, sequence, env.ids(i), env.stamps(i), previousHash, previousSignature)
    requires WellFormedEvent(e) && VerifySignature(e.header, key)
    ensures e == Seal(sequence, previousHash, previousSignature, tid, key, p, i, env)
  {
    assert e.header == Seal(sequence, previousHash, previousSignature, tid, key, p, i, env).header;
  }

  /** More events, positions and proposals behind do not matter. */
  lemma AnswerAtSame(
    a: seq<HarnessEvent>, b: seq<HarnessEvent>, j: int, head: Snapshot, tid: string, ks: seq<nat>, ls: seq<nat>,
    ps: seq<ProposedEvent>, qs: seq<ProposedEvent>, env: Env)
    requires 0 <= j < |a| == |ks| && j < |b| == |ls| && a[..j + 1] == b[..j + 1] && ks[j] == ls[j]
    requires ks[j] < |ps| && ks[j] < |qs| && ps[ks[j]] == qs[ks[j]]
    ensures AnswerAt(a, j, head, tid, ks, ps, env) <==> AnswerAt(b, j, head, tid, ls, qs, env)
  {
    hide AnswersAs;
    assert a[j] == a[..j + 1][j] == b[..j + 1][j] == b[j];
    assert j > 0 ==> a[j - 1] == a[..j + 1][j - 1] == b[..j + 1][j - 1] == b[j - 1];
  }

  lemma LastAnswer(
    events: seq<HarnessEvent>, head: Snapshot, tid: string, key: Option<string>, ks: seq<nat>, ps: seq<ProposedEvent>,
    p: ProposedEvent, env: Env)
    requires |events| == |ks| > 0 && ks[|ks| - 1] == |ps|
    requires AnswerAt(events, |ks| - 1, head, tid, ks, ps + [p], env)
    requires WellFormedEvent(events[|ks| - 1]) && VerifySignature(events[|ks| - 1].header, key)
    ensures events[|ks| - 1] == SealedNext(head, events[..|ks| - 1], tid, key, p, |ps|, env)
  {
    hide Seal, WellFormedEvent, VerifySignature, AnswersAs;
    var n := |ks| - 1;
    var previousHash := if n == 0 then head.lastEventHash else Some(events[n - 1].header.eventHash);
    var previousSignature := if n == 0 then head.lastSignature else events[n - 1].header.signature;
    AnswerIsSeal(events[n], head.sequence + n + 1, previousHash, previousSignature, tid, key, p, |ps|, env);
  }

  lemma AnswerInit(
    events: seq<HarnessEvent>, head: Snapshot, tid: string, key: Option<string>, ps: seq<ProposedEvent>,
    p: ProposedEvent, env: Env)
    requires AnswerBatch(events, head, tid, key, ps + [p], env) && !KeyAmong(ps, p.idempotencyKey)
    ensures events != [] && AnswerBatch(events[..|events| - 1], head, tid, key, ps, env)
    ensures events[|events| - 1] == SealedNext(head, events[..|events| - 1], tid, key, p, |ps|, env)
  {
    hide WellFormedEvent, VerifySignature, KeyAmong, AnswerAt, NewIndices, SealedNext;
    NewProposalsSnoc(ps, p);
    NewIndicesBelow(ps);
    var n, ks := |events| - 1, NewIndices(ps);
    forall j | 0 <= j < n ensures AnswerAt(events[..n], j, head, tid, ks, ps, env) {
      assert AnswerAt(events, j, head, tid, ks + [|ps|], ps + [p], env);
      assert events[..n][..j + 1] == events[..j + 1];
      AnswerAtSame(events[..n], events, j, head, tid, ks, ks + [|ps|], ps, ps + [p], env);
    }
    LastAnswer(events, head, tid, key, ks + [|ps|], ps, p, env);
  }

  lemma NewIndicesBelow(ps: seq<ProposedEvent>)
    ensures forall j :: 0 <= j < |NewIndices(ps)| ==> NewIndices(ps)[j] < |ps|
    ensures forall i, j :: 0 <= i < j < |NewIndices(ps)| ==> NewIndices(ps)[i] < NewIndices(ps)[j]
  {
    NewProposalsExact(ps);
  }

  /** So an answer to a batch is the sealed batch. */
  lemma {:induction false} AnswerIsSealed(
    events: seq<HarnessEvent>, head: Snapshot, tid: string, key: Option<string>, ps: seq<ProposedEvent>, env: Env)
    requires AnswerBatch(events, head, tid, key, ps, env)
    ensures events == SealedBatch(head, tid, key, ps, env)
    decreases |ps|
  {
    hide SealedNext, KeyAmong, AnswerAt, Authentic;
    if ps == [] {
    } else {
      var init, p := ps[..|ps| - 1], ps[|ps| - 1];
      assert ps == init + [p];
      if KeyAmong(init, p.idempotencyKey) {
        RepeatedAnswer(events, head, tid, key, init, p, env);
        AnswerIsSealed(events, head, tid, key, init, env);
      } else {
        AnswerInit(events, head, tid, key, init, p, env);
        AnswerIsSealed(events[..|events| - 1], head, tid, key, init, env);
        assert events == events[..|events| - 1] + [events[|events| - 1]];
      }
    }
  }

  lemma RepeatedAnswer(
    events: seq<HarnessEvent>, head: Snapshot, tid: string, key: Option<string>, ps: seq<ProposedEvent>,
    p: ProposedEvent, env: Env)
    requires KeyAmong(ps, p.idempotencyKey)
    ensures AnswerBatch(events, head, tid, key, ps + [p], env) <==> AnswerBatch(events, head, tid, key, ps, env)
  {
    hide KeyAmong, AnswerAt, Authentic;
    NewIndicesBelow(ps);
    assert (ps + [p])[..|ps|] == ps;
    var ks := NewIndices(ps);
    assert NewIndices(ps + [p]) == ks;
    if |events| == |ks| {
      forall j | 0 <= j < |ks|
        ensures AnswerAt(events, j, head, tid, ks, ps + [p], env) <==> AnswerAt(events, j, head, tid, ks, ps, env)
      {
        AnswerAtSame(events, events, j, head, tid, ks, ks, ps + [p], ps, env);
      }
    }
  }

  /** And the sealed batch, if the reducer accepts it, is an answer. */
  lemma {:induction false} SealedIsAnswer(
    head: Snapshot, tid: string, key: Option<string>, ps: seq<ProposedEvent>, env: Env)
    requires Fold(head, SealedBatch(head, tid, key, ps, env), env.clock).Success?
    ensures AnswerBatch(SealedBatch(head, tid, key, ps, env), head, tid, key, ps, env)
    decreases |ps|
  {
    if ps == [] {
    } else {
      hide SealedNext, KeyAmong, AnswerBatch, Fold, SealedBatch;
      var init, p := ps[..|ps| - 1], ps[|ps| - 1];
      assert ps == init + [p];
      SealedSnoc(head, tid, key, init, p, env);
      var before := SealedBatch(head, tid, key, init, env);
      if KeyAmong(init, p.idempotencyKey) {
        SealedIsAnswer(head, tid, key, init, env);
        RepeatedAnswer(before, head, tid, key, init, p, env);
      } else {
        FoldSnocIff(head, before, SealedNext(head, before, tid, key, p, |init|, env), env.clock);
        SealedIsAnswer(head, tid, key, init, env);
        AnswerSnoc(before, head, tid, key, init, p, env);
      }
    }
  }

  lemma SealedNextAnswers(
    before: seq<HarnessEvent>, head: Snapshot, tid: string, key: Option<string>, ks: seq<nat>, ps: seq<ProposedEvent>,
    p: ProposedEvent, env: Env)
    requires |before| == |ks|
    ensures var e := SealedNext(head, before, tid, key, p, |ps|, env);
      && AnswerAt(before + [e], |ks|, head, tid, ks + [|ps|], ps + [p], env)
      && VerifySignature(e.header, key) && e.payload == p.payload && e.header.eventType == p.eventType
      && (WellFormedEvent(e) <==> p.eventType == PayloadTypeName(p.payload))
  {
    hide Seal, WellFormedEvent, VerifySignature, AnswersAs;
    var n := |before|;
    var previousHash := if n == 0 then head.lastEventHash else Some(before[n - 1].header.eventHash);
    var previousSignature := if n == 0 then head.lastSignature else before[n - 1].header.signature;
    SealAnswers(head.sequence + n + 1, previousHash, previousSignature, tid, key, p, |ps|, env);
    SealedFields(head.sequence + n + 1, previousHash, previousSignature, tid, key, p, |ps|, env);
  }

  lemma SealedFields(
    sequence: int, previousHash: Option<Hash>, previousSignature: Option<Hash>,
    tid: string, key: Option<string>, p: ProposedEvent, i: int, env: Env)
    ensures var e := Seal(sequence, previousHash, previousSignature, tid, key, p, i, env);
      e.payload == p.payload && e.header.eventType == p.eventType
  {
  }

  lemma AnswerSnoc(
    before: seq<HarnessEvent>, head: Snapshot, tid: string, key: Option<string>, ps: seq<ProposedEvent>,
    p: ProposedEvent, env: Env)
    requires AnswerBatch(before, head, tid, key, ps, env) && !KeyAmong(ps, p.idempotencyKey)
    requires Fold(head, before, env.clock).Success?
    requires var e := SealedNext(head, before, tid, key, p, |ps|, env);
      ReduceEvent(Fold(head, before, env.clock).value, e, env.clock(e.header.sequence)).Success?
    ensures AnswerBatch(before + [SealedNext(head, before, tid, key, p, |ps|, env)], head, tid, key, ps + [p], env)
  {
    hide WellFormedEvent, VerifySignature, KeyAmong, AnswerAt, Fold, ReduceEvent, NewIndices, SealedNext;
    var e, ks := SealedNext(head, before, tid, key, p, |ps|, env), NewIndices(ps);
    SealedNextAnswers(before, head, tid, key, ks, ps, p, env);
    ReducedHasItsType(Fold(head, before, env.clock).value, e, env.clock(e.header.sequence));
    NewProposalsSnoc(ps, p);
    NewIndicesBelow(ps);
    var events := before + [e];
    forall j | 0 <= j < |ks| ensures AnswerAt(events, j, head, tid, ks + [|ps|], ps + [p], env) {
      assert AnswerAt(before, j, head, tid, ks, ps, env);
      assert events[..j + 1] == before[..j + 1];
      AnswerAtSame(events, before, j, head, tid, ks + [|ps|], ks, ps + [p], ps, env);
    }
  }

  lemma ReducedHasItsType(s: Snapshot, e: HarnessEvent, now: Time)
    requires ReduceEvent(s, e, now).Success?
    ensures e.header.eventType == PayloadTypeName(e.payload)
  {
    hide Handle;
  }

  /** Different ids that no event has are enough for the events of a batch to have free ids. */
  lemma DistinctIdsSuffice(
    t: Tables, events: seq<HarnessEvent>, head: Snapshot, tid: string, key: Option<string>, ps: seq<ProposedEvent>,
    env: Env)
    requires AnswerBatch(events, head, tid, key, ps, env)
    requires forall i, j :: 0 <= i < j < |ps| ==> env.ids(i) != env.ids(j)
    requires forall i :: 0 <= i < |ps| ==> !EventIdTaken(t, env.ids(i))
    ensures FreshEventIds(t, events)
  {
    hide EventIdTaken, Authentic;
    NewIndicesBelow(ps);
    var ks := NewIndices(ps);
    forall j | 0 <= j < |events| ensures events[j].header.eventId == env.ids(ks[j]) {
      assert AnswerAt(events, j, head, tid, ks, ps, env);
    }
    assert forall i, j :: 0 <= i < j < |events| ==> ks[i] < ks[j] < |ps|;
  }

  /** A commit with new keys succeeds exactly when the head loads and is the expected one, each key of the batch
    stands for one request, and some answer to the batch has free ids and is accepted by the reducer; that
    answer is then what it commits. */
  lemma CommitSucceedsIffAnswered(
    t: Tables, key: Option<string>, tid: string, expectedSequence: int, expectedHash: Option<Hash>,
    ps: seq<ProposedEvent>, env: Env)
    requires tid in t.trajectories ==> ValidTrajectory(t, key, tid)
    requires ps != [] && !SomeKeyUsed(KeysOf(t, tid), ps)
    ensures var r, head := Commit(t, key, tid, expectedSequence, expectedHash, ps, env).1,
        LoadHead(t, key, tid, env.clock);
      && (r.Success? <==>
            && head.Success?
            && expectedSequence == |RowsOf(t, tid)| && expectedHash == HeadHash(RowsOf(t, tid)) && OneRequestPerKey(ps)
            && exists events :: AnswerBatch(events, head.value, tid, key, ps, env)
                 && FreshEventIds(t, events) && Fold(head.value, events, env.clock).Success?)
      && (r.Success? ==> AnswerBatch(r.value.committedEvents, head.value, tid, key, ps, env))
  {
    hide Commit, LoadHead, ValidTrajectory, SomeKeyUsed, OneRequestPerKey, FreshEventIds, AnswerBatch, SealedBatch,
      Fold,
      HeadHash;
    CommitSucceedsIff(t, key, tid, expectedSequence, expectedHash, ps, env);
    var head := LoadHead(t, key, tid, env.clock);
    if head.Success? {
      var sealed := SealedBatch(head.value, tid, key, ps, env);
      if Fold(head.value, sealed, env.clock).Success? {
        SealedIsAnswer(head.value, tid, key, ps, env);
      }
      forall events | AnswerBatch(events, head.value, tid, key, ps, env) ensures events == sealed {
        AnswerIsSealed(events, head.value, tid, key, ps, env);
      }
    }
  }

  // ----- how a commit fails -----

  /** The first proposal of a retry that its key does not answer decides the error. */
  lemma RetryError(keys: map<string, KeyRow>, ps: seq<ProposedEvent>, i: nat)
    requires i < |ps| && !KeyAnswers(keys, ps[i]) && forall j :: 0 <= j < i ==> KeyAnswers(keys, ps[j])
    ensures RetryReceipts(keys, ps) ==
            Failure(if ps[i].idempotencyKey in keys then IdempotencyConflict else CommitFailed)
  {
    hide ComputeRequestHash, ReceiptOf;
    RetryReceiptsIff(keys, ps[..i]);
    assert ps[..i + 1][..i] == ps[..i] && ps[..i + 1][i] == ps[i];
    RetryReceiptsFail(keys, ps, i + 1);
  }

  /** The first proposal that cannot be committed on top of those before it decides the error. */
  lemma LoopError(
    t: Tables, tid: string, key: Option<string>, head: Snapshot, ps: seq<ProposedEvent>, i: nat, env: Env)
    requires Numbered(RowsOf(t, tid), 0) && KeysMatch(RowsOf(t, tid), KeysOf(t, tid))
    requires head.sequence == |RowsOf(t, tid)| && !SomeKeyUsed(KeysOf(t, tid), ps)
    requires i < |ps| && Committable(t, head, tid, key, ps[..i], env)
    requires !Committable(t, head, tid, key, ps[..i + 1], env)
    ensures CommitLoop(StartBatch(t, head), tid, key, ps, env) ==
            Failure(if KeyAmong(ps[..i], ps[i].idempotencyKey) then IdempotencyConflict else CommitFailed)
  {
    hide Committable, KeysMatch, Numbered, BatchOk, CommitOne, KeyAmong, StartBatch;
    PrefixUnused(KeysOf(t, tid), ps, i);
    PrefixUnused(KeysOf(t, tid), ps, i + 1);
    LoopSucceedsIff(t, tid, key, head, ps[..i], env);
    LoopSucceedsIff(t, tid, key, head, ps[..i + 1], env);
    assert ps[..i + 1][..i] == ps[..i] && ps[..i + 1][i] == ps[i];
    var b := CommitLoop(StartBatch(t, head), tid, key, ps[..i], env).value;
    var added := LoopKeepsBatchOk(t, tid, key, head, ps[..i], env);
    TurnError(b, added, t, tid, key, head, ps[..i], ps[i], env);
    CommitLoopFails(StartBatch(t, head), tid, key, ps, i + 1, env);
  }

  lemma PrefixUnused(keys: map<string, KeyRow>, ps: seq<ProposedEvent>, i: nat)
    requires i <= |ps| && !SomeKeyUsed(keys, ps)
    ensures !SomeKeyUsed(keys, ps[..i]) && (i < |ps| ==> ps[i].idempotencyKey !in keys)
  {
  }

  lemma TurnError(
    b: Batch, added: seq<EventRow>, t: Tables, tid: string, key: Option<string>, head: Snapshot,
    ps: seq<ProposedEvent>, p: ProposedEvent, env: Env)
    requires BatchOk(b, added, t, tid, key, head, ps, env) && p.idempotencyKey !in KeysOf(t, tid)
    ensures var r := CommitOne(b, tid, key, p, |ps|, env);
      r.Failure? ==> r.error == if KeyAmong(ps, p.idempotencyKey) then IdempotencyConflict else CommitFailed
  {
    hide ReduceEvent, SealEvent, WellFormedEvent, EventIdTaken, KeyAmong, Fold, KeysMatch, ReceiptsMatch, AllCarry;
  }

  /** Each refusal by its cause: no proposals; a head that has moved; a key that stands for another request,
    in the table or earlier in the batch, met first; and one error for everything else. */
  lemma CommitErrors(
    t: Tables, key: Option<string>, tid: string, expectedSequence: int, expectedHash: Option<Hash>,
    ps: seq<ProposedEvent>, env: Env)
    requires tid in t.trajectories ==> ValidTrajectory(t, key, tid)
    ensures var r, head, keys := Commit(t, key, tid, expectedSequence, expectedHash, ps, env).1,
                                 LoadHead(t, key, tid, env.clock), KeysOf(t, tid);
      var fits := expectedSequence == |RowsOf(t, tid)| && expectedHash == HeadHash(RowsOf(t, tid));
      && (ps == [] ==> r == Failure(NoProposals))
      && (ps != [] && head.Failure? ==> r == Failure(CommitFailed))
      && (ps != [] && head.Success? && !SomeKeyUsed(keys, ps) && !fits ==> r == Failure(StaleContext))
      && (ps != [] && head.Success? && SomeKeyUsed(keys, ps) ==>
            forall i :: 0 <= i < |ps| && !KeyAnswers(keys, ps[i])
                        && (forall j :: 0 <= j < i ==> KeyAnswers(keys, ps[j])) ==>
              r == Failure(if ps[i].idempotencyKey in keys then IdempotencyConflict else CommitFailed))
      && (ps != [] && head.Success? && !SomeKeyUsed(keys, ps) && fits ==>
            forall i :: 0 <= i < |ps| && Committable(t, head.value, tid, key, ps[..i], env)
                        && !Committable(t, head.value, tid, key, ps[..i + 1], env) ==>
              r == Failure(if KeyAmong(ps[..i], ps[i].idempotencyKey) then IdempotencyConflict else CommitFailed))
  {
    hide LoadHead, CommitLoop, AutoCheckpoint, RetryReceipts, SomeKeyUsed, Fold, FoldsTo, ValidTrajectory, KeyAnswers,
      Committable, HeadHash, KeysMatch, Numbered, KeyAmong;
    LoadHeadNeedsTrajectory(t, key, tid, env.clock);
    var head, keys := LoadHead(t, key, tid, env.clock), KeysOf(t, tid);
    if ps != [] && head.Success? {
      LoadHeadIsFold(t, key, tid, env.clock);
      HeadLinks(t, tid, key, head.value);
      LogNumbered(t, key, tid);
      KeysOfValid(t, tid, key);
      if SomeKeyUsed(keys, ps) {
        forall i | 0 <= i < |ps| && !KeyAnswers(keys, ps[i]) && forall j :: 0 <= j < i ==> KeyAnswers(keys, ps[j])
          ensures RetryReceipts(keys, ps) ==
                  Failure(if ps[i].idempotencyKey in keys then IdempotencyConflict else CommitFailed)
        {
          RetryError(keys, ps, i);
        }
      } else {
        forall i | 0 <= i < |ps| && Committable(t, head.value, tid, key, ps[..i], env)
                   && !Committable(t, head.value, tid, key, ps[..i + 1], env)
          ensures CommitLoop(StartBatch(t, head.value), tid, key, ps, env) ==
                  Failure(if KeyAmong(ps[..i], ps[i].idempotencyKey) then IdempotencyConflict else CommitFailed)
        {
          LoopError(t, tid, key, head.value, ps, i, env);
        }
      }
    }
  }
}
