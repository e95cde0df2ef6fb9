/** Facts about folding a log that hold for every event: concatenation, numbering, chaining,
  and the identification of a log by its head hash.
 */
module FoldFacts {
  import opened Results
  import opened Schema
  import opened Reducer

  /** Folding a concatenation is folding the second part from where the first part ends. */
  lemma {:induction false} FoldConcat(s: Snapshot, a: seq<HarnessEvent>, b: seq<HarnessEvent>, clock: Clock)
    ensures Fold(s, a + b, clock) ==
            match Fold(s, a, clock) case Success(m) => Fold(m, b, clock) case Failure(error) => Failure(error)
    decreases |b|
  {
    hide Handle;
    if b == [] {
      assert a + b == a;
    } else {
      var c := b[..|b| - 1];
      FoldConcat(s, a, c, clock);
      assert (a + b)[..|a + b| - 1] == a + c;
    }
  }

  /** What acceptance of one event says about its envelope and about the next snapshot. */
  lemma ReduceEnvelope(s: Snapshot, e: HarnessEvent, now: Time)
    ensures var r := ReduceEvent(s, e, now);
      r.Success? ==>
        && e.header.trajectoryId == s.trajectoryId == r.value.trajectoryId
        && e.header.sequence == s.sequence + 1 == r.value.sequence
        && e.header.previousEventHash == s.lastEventHash
        && (e.header.signature.Some? || s.lastSignature.Some? ==> e.header.previousSignature == s.lastSignature)
        && r.value.lastEventHash == Some(e.header.eventHash)
        && r.value.lastSignature == e.header.signature
        && r.value.createdAt == e.header.createdAt
        && e.header.eventType == PayloadTypeName(e.payload)
  {
    hide Handle;
  }

  /** An authentic event: every field of the header but hash and signature is hashed, with the digest of the payload,
    and the signature covers that hash and the signature before it; without a key there is none. */
  lemma AuthenticExact(e: HarnessEvent, key: Option<string>)
    ensures var h := e.header;
      WellFormedEvent(e) && VerifySignature(h, key) <==>
        && h.eventType == PayloadTypeName(e.payload) && e.payloadHash == PayloadDigest(e.payload)
        && h.eventHash == EventDigest(
             h.eventId, h.trajectoryId, h.sequence, h.eventType, h.schemaVersion, h.idempotencyKey, h.parentEventId,
             h.createdAt, h.actor, h.actionId, PayloadDigest(e.payload), h.previousEventHash, h.previousSignature)
        && (key.None? ==> h.signature.None?)
        && (key.Some? ==> h.signature == Some(SignatureDigest(key.value, h.eventHash, h.previousSignature)))
  {
  }

  /** A snapshot that some log can have led to: it has a head hash exactly when it has events. */
  predicate WellChained(s: Snapshot) {
    s.sequence >= 0 && (s.sequence == 0 <==> s.lastEventHash.None?) && (s.sequence == 0 ==> s.lastSignature.None?)
  }

  /** In such a state the envelope is accepted exactly when the event is the next one of this trajectory and
    links to the head, by signature too once signatures are in use. */
  lemma EnvelopeAcceptedIff(s: Snapshot, e: HarnessEvent)
    requires WellChained(s)
    ensures ValidateEnvelope(s, e).None? <==>
            && e.header.trajectoryId == s.trajectoryId
            && e.header.schemaVersion <= CURRENT_EVENT_SCHEMA_VERSION
            && e.header.eventType == PayloadTypeName(e.payload)
            && e.header.sequence == s.sequence + 1
            && e.header.previousEventHash == s.lastEventHash
            && (e.header.signature.Some? || s.lastSignature.Some? ==>
                  e.header.previousSignature == s.lastSignature && (s.sequence > 0 ==> s.lastSignature.Some?))
  {
  }

  /** Folding keeps a snapshot well chained. */
  lemma FoldWellChained(s: Snapshot, log: seq<HarnessEvent>, clock: Clock)
    requires WellChained(s) && Fold(s, log, clock).Success?
    ensures WellChained(Fold(s, log, clock).value)
  {
    hide Fold;
    FoldNumbering(s, log, clock);
  }

  /** An accepted log is numbered consecutively from the snapshot, and ends where the fold ends. */
  lemma {:induction false} FoldNumbering(s: Snapshot, log: seq<HarnessEvent>, clock: Clock)
    requires Fold(s, log, clock).Success?
    ensures var r := Fold(s, log, clock).value;
      && r.sequence == s.sequence + |log|
      && r.trajectoryId == s.trajectoryId
      && (|log| == 0 ==> r == s)
      && (|log| > 0 ==> r.lastEventHash == Some(log[|log| - 1].header.eventHash))
      && (|log| > 0 ==> r.lastSignature == log[|log| - 1].header.signature)
    ensures forall i :: 0 <= i < |log| ==> log[i].header.sequence == s.sequence + i + 1
    ensures forall i :: 0 <= i < |log| ==> log[i].header.trajectoryId == s.trajectoryId
    decreases |log|
  {
    hide Handle;
    if log != [] {
      var prefix := log[..|log| - 1];
      FoldNumbering(s, prefix, clock);
      ReduceEnvelope(Fold(s, prefix, clock).value, log[|log| - 1], clock(log[|log| - 1].header.sequence));
      forall i | 0 <= i < |log|
        ensures log[i].header.sequence == s.sequence + i + 1 && log[i].header.trajectoryId == s.trajectoryId
      {
        if i < |prefix| { assert log[i] == prefix[i]; }
      }
    }
  }

  /** Every prefix of an accepted log is accepted, and its successor links to it. */
  lemma {:induction false} FoldPrefix(s: Snapshot, log: seq<HarnessEvent>, n: nat, clock: Clock)
    requires Fold(s, log, clock).Success? && n <= |log|
    ensures Fold(s, log[..n], clock).Success?
    ensures n < |log| ==> log[n].header.previousEventHash == Fold(s, log[..n], clock).value.lastEventHash
  {
    hide Handle;
    assert log == log[..n] + log[n..];
    FoldConcat(s, log[..n], log[n..], clock);
    if n < |log| {
      assert log[..n + 1] == log[..n] + [log[n]];
      assert log == log[..n + 1] + log[n + 1..];
      FoldConcat(s, log[..n + 1], log[n + 1..], clock);
      assert log[..n + 1][..n] == log[..n];
      ReduceEnvelope(Fold(s, log[..n], clock).value, log[n], clock(log[n].header.sequence));
    }
  }

  /** A fold reads the clock only at the sequence numbers of the log. */
  lemma {:induction false} FoldClockAgree(s: Snapshot, log: seq<HarnessEvent>, c1: Clock, c2: Clock)
    requires forall k :: s.sequence < k <= s.sequence + |log| ==> c1(k) == c2(k)
    ensures Fold(s, log, c1) == Fold(s, log, c2)
    decreases |log|
  {
    hide Handle;
    if log != [] {
      var prefix := log[..|log| - 1];
      FoldClockAgree(s, prefix, c1, c2);
      if Fold(s, prefix, c1).Success? {
        FoldNumbering(s, prefix, c1);
      }
    }
  }

  /** Some run of the reducer over `log` from `g` ended in `s`. */
  ghost predicate FoldsTo(g: Snapshot, log: seq<HarnessEvent>, s: Snapshot) {
    exists clock: Clock :: Fold(g, log, clock) == Success(s)
  }

  /** Stopping in the middle and going on later, with other clock readings, is one run. */
  lemma FoldsToExtend(g: Snapshot, a: seq<HarnessEvent>, m: Snapshot, b: seq<HarnessEvent>, clock: Clock, s: Snapshot)
    requires FoldsTo(g, a, m)
    requires Fold(m, b, clock) == Success(s)
    ensures FoldsTo(g, a + b, s)
  {
    hide Handle;
    var first: Clock :| Fold(g, a, first) == Success(m);
    FoldNumbering(g, a, first);
    var joined: Clock := k => if k <= m.sequence then first(k) else clock(k);
    FoldClockAgree(g, a, first, joined);
    FoldClockAgree(m, b, clock, joined);
    FoldConcat(g, a, b, joined);
    assert Fold(g, a + b, joined) == Success(s);
  }

  /** Every event is what HarnessEvent builds and carries the signature that `key` gives it. */
  ghost predicate Authentic(log: seq<HarnessEvent>, key: Option<string>) {
    forall i :: 0 <= i < |log| ==> WellFormedEvent(log[i]) && VerifySignature(log[i].header, key)
  }

  /** Under one key an event is determined by its hash. */
  lemma SameHashSameEvent(x: HarnessEvent, y: HarnessEvent, key: Option<string>)
    requires WellFormedEvent(x) && VerifySignature(x.header, key)
    requires WellFormedEvent(y) && VerifySignature(y.header, key)
    requires x.header.eventHash == y.header.eventHash
    ensures x == y
  {
    assert x.payloadHash == y.payloadHash;
    assert x.header.signature == y.header.signature;
    assert x.header == y.header;
  }

  /** The head hash identifies the log: two logs accepted from one fresh trajectory and verified
    under one key that end in the same last_event_hash are equal event for event. */
  lemma {:induction false} HeadHashIdentifiesLog(
    g: Snapshot, key: Option<string>,
    a: seq<HarnessEvent>, ca: Clock, b: seq<HarnessEvent>, cb: Clock)
    requires g.lastEventHash.None?
    requires Authentic(a, key) && Authentic(b, key)
    requires Fold(g, a, ca).Success? && Fold(g, b, cb).Success?
    requires Fold(g, a, ca).value.lastEventHash == Fold(g, b, cb).value.lastEventHash
    ensures a == b
    decreases |a|
  {
    hide Fold;
    FoldNumbering(g, a, ca);
    FoldNumbering(g, b, cb);
    if a != [] && b != [] {
      var m, n := |a| - 1, |b| - 1;
      SameHashSameEvent(a[m], b[n], key);
      FoldPrefix(g, a, m, ca);
      FoldPrefix(g, b, n, cb);
      HeadHashIdentifiesLog(g, key, a[..m], ca, b[..n], cb);
      assert a == a[..m] + [a[m]] && b == b[..n] + [b[n]];
    }
  }

  /** Conversely no history can be forked and rejoined: logs that differ anywhere differ at the head. */
  lemma DivergentLogsNeverRejoin(
    g: Snapshot, key: Option<string>,
    common: seq<HarnessEvent>, a: seq<HarnessEvent>, ca: Clock, b: seq<HarnessEvent>, cb: Clock)
    requires g.lastEventHash.None?
    requires Authentic(common + a, key) && Authentic(common + b, key)
    requires Fold(g, common + a, ca).Success? && Fold(g, common + b, cb).Success?
    requires a != b
    ensures Fold(g, common + a, ca).value.lastEventHash != Fold(g, common + b, cb).value.lastEventHash
  {
    hide Handle;
    assert a == (common + a)[|common|..] && b == (common + b)[|common|..];
    if Fold(g, common + a, ca).value.lastEventHash == Fold(g, common + b, cb).value.lastEventHash {
      HeadHashIdentifiesLog(g, key, common + a, ca, common + b, cb);
    }
  }
}
