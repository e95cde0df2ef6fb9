/** rfsn_kv/residency.py: which pages are in memory, under a budget, an LRU policy and pins. */
module Residency {
  import opened Results
  import opened Subsequences

  type Time = int

  datatype Entry = Entry(pageId: string, loadedAt: Time, lastAccessed: Time, pinCount: int)

  datatype Manager = Manager(maxPages: int, resident: seq<Entry>)

  function Ids(entries: seq<Entry>): (ids: seq<string>)
    ensures |ids| == |entries| && forall i :: 0 <= i < |entries| ==> ids[i] == entries[i].pageId
  {
    seq(|entries|, i requires 0 <= i < |entries| => entries[i].pageId)
  }

  predicate IsPinned(e: Entry) {
    e.pinCount > 0
  }

  predicate IsResident(m: Manager, p: string) {
    p in Ids(m.resident)
  }

  /** get_entry: the first entry of the page. */
  function GetEntry(entries: seq<Entry>, p: string): (r: Option<Entry>)
    ensures r.Some? <==> p in Ids(entries)
    ensures r.Some? ==> r.value in entries && r.value.pageId == p
  {
    if entries == [] then None
    else
      assert Ids(entries) == [entries[0].pageId] + Ids(entries[1..]);
      if entries[0].pageId == p then Some(entries[0]) else GetEntry(entries[1..], p)
  }

  /** Every entry of the page replaced, the others kept. */
  function ReplaceAll(entries: seq<Entry>, p: string, by_: Entry): (r: seq<Entry>)
    ensures |r| == |entries|
    ensures forall i :: 0 <= i < |r| ==> r[i] == if entries[i].pageId == p then by_ else entries[i]
  {
    seq(|entries|, i requires 0 <= i < |entries| => if entries[i].pageId == p then by_ else entries[i])
  }

  function Without(entries: seq<Entry>, p: string): seq<Entry> {
    if entries == [] then []
    else (if entries[0].pageId == p then [] else [entries[0]]) + Without(entries[1..], p)
  }

  function Touched(entries: seq<Entry>, p: string, now: Time): (r: seq<Entry>)
    ensures |r| == |entries|
    ensures forall i :: 0 <= i < |r| ==>
      r[i] == if entries[i].pageId == p then entries[i].(lastAccessed := now) else entries[i]
  {
    seq(|entries|, i requires 0 <= i < |entries| =>
      if entries[i].pageId == p then entries[i].(lastAccessed := now) else entries[i])
  }

  /** The unpinned entry accessed longest ago, the first of several. */
  ghost predicate OldestAt(entries: seq<Entry>, k: int) {
    && 0 <= k < |entries| && entries[k].pinCount <= 0
    && (forall i :: 0 <= i < |entries| && entries[i].pinCount <= 0 ==>
          entries[k].lastAccessed <= entries[i].lastAccessed)
    && (forall i :: 0 <= i < k && entries[i].pinCount <= 0 ==> entries[k].lastAccessed < entries[i].lastAccessed)
  }

  ghost predicate AllPinned(entries: seq<Entry>) {
    forall i :: 0 <= i < |entries| ==> entries[i].pinCount > 0
  }

  /** LRUEvictionPolicy */
  function SelectVictim(entries: seq<Entry>): (r: Option<Entry>)
    ensures r.None? <==> AllPinned(entries)
    ensures r.Some? ==> r.value in entries && !IsPinned(r.value)
    ensures r.Some? ==>
              forall i :: 0 <= i < |entries| && !IsPinned(entries[i]) ==>
                  r.value.lastAccessed <= entries[i].lastAccessed
    decreases |entries|
  {
    if entries == [] then None
    else
      var last := entries[|entries| - 1];
      var r := SelectVictim(entries[..|entries| - 1]);
      if IsPinned(last) then r
      else if r.Some? && r.value.lastAccessed <= last.lastAccessed then r
      else Some(last)
  }

  lemma OldestNext(entries: seq<Entry>, last: Entry, k: int)
    requires OldestAt(entries, k)
    ensures last.pinCount <= 0 && last.lastAccessed < entries[k].lastAccessed ==> OldestAt(entries + [last], |entries|)
    ensures last.pinCount > 0 || last.lastAccessed >= entries[k].lastAccessed ==> OldestAt(entries + [last], k)
  {
  }

  lemma OldestFirst(entries: seq<Entry>, last: Entry)
    requires AllPinned(entries) && last.pinCount <= 0
    ensures OldestAt(entries + [last], |entries|)
  {
  }

  lemma {:induction false} VictimIsFirstOldest(entries: seq<Entry>) returns (k: int)
    requires !AllPinned(entries)
    ensures OldestAt(entries, k) && SelectVictim(entries) == Some(entries[k])
    decreases |entries|
  {
    var n := |entries| - 1;
    var init, last := entries[..n], entries[n];
    assert entries == init + [last];
    if AllPinned(init) {
      k := n;
      OldestFirst(init, last);
    } else {
      hide OldestAt;
      k := VictimIsFirstOldest(init);
      OldestInRange(init, k);
      OldestNext(init, last, k);
      if !IsPinned(last) && last.lastAccessed < init[k].lastAccessed {
        k := n;
      }
    }
  }

  function Evict(m: Manager): (Manager, Option<string>) {
    match SelectVictim(m.resident)
    case None => (m, None)
    case Some(v) => (m.(resident := Without(m.resident, v.pageId)), Some(v.pageId))
  }

  function Touch(m: Manager, p: string, now: Time): Manager {
    m.(resident := Touched(m.resident, p, now))
  }

  function Pin(m: Manager, p: string): Manager {
    match GetEntry(m.resident, p)
    case None => m
    case Some(e) => m.(resident := ReplaceAll(m.resident, p, e.(pinCount := e.pinCount + 1)))
  }

  function Unload(m: Manager, p: string): Manager {
    match GetEntry(m.resident, p)
    case None => m
    case Some(e) =>
      if e.pinCount > 0 then m.(resident := ReplaceAll(m.resident, p, e.(pinCount := e.pinCount - 1)))
      else m.(resident := Without(m.resident, p))
  }

  function Loaded(m: Manager, p: string, now: Time): Manager {
    if IsResident(m, p) then Touch(m, p, now)
    else
      var room := if |m.resident| >= m.maxPages then Evict(m).0 else m;
      room.(resident := room.resident + [Entry(p, now, now, 0)])
  }

  // ----- unique ids -----

  ghost predicate Unique(entries: seq<Entry>) {
    forall i, j :: 0 <= i < j < |entries| ==> entries[i].pageId != entries[j].pageId
  }

  lemma {:induction false} WithoutAbsent(entries: seq<Entry>, p: string)
    requires p !in Ids(entries)
    ensures Without(entries, p) == entries
  {
    if entries != [] {
      assert Ids(entries) == [entries[0].pageId] + Ids(entries[1..]);
      WithoutAbsent(entries[1..], p);
    }
  }

  lemma {:induction false} WithoutAt(entries: seq<Entry>, k: nat)
    requires Unique(entries) && k < |entries|
    ensures Without(entries, entries[k].pageId) == entries[..k] + entries[k + 1..]
    decreases k
  {
    if k == 0 {
      assert entries[0].pageId !in Ids(entries[1..]);
      WithoutAbsent(entries[1..], entries[0].pageId);
    } else {
      WithoutAt(entries[1..], k - 1);
      assert entries[1..][..k - 1] == entries[..k][1..] && entries[1..][k..] == entries[k + 1..];
      assert entries[..k] == [entries[0]] + entries[..k][1..];
    }
  }

  lemma {:induction false} WithoutMembers(entries: seq<Entry>, p: string)
    ensures forall e :: e in Without(entries, p) <==> e in entries && e.pageId != p
  {
    if entries != [] {
      WithoutMembers(entries[1..], p);
      assert entries == [entries[0]] + entries[1..];
    }
  }

  lemma WithoutFacts(entries: seq<Entry>, p: string)
    requires Unique(entries)
    ensures Unique(Without(entries, p))
    ensures forall e :: e in Without(entries, p) <==> e in entries && e.pageId != p
    ensures |Without(entries, p)| == |entries| - if p in Ids(entries) then 1 else 0
  {
    hide Without;
    WithoutMembers(entries, p);
    if p in Ids(entries) {
      var k :| 0 <= k < |Ids(entries)| && Ids(entries)[k] == p;
      WithoutAt(entries, k);
    } else {
      WithoutAbsent(entries, p);
    }
  }

  lemma EvictFacts(m: Manager)
    requires Unique(m.resident)
    ensures var (u, v) := Evict(m);
      && Unique(u.resident) && u.maxPages == m.maxPages
      && (v.None? ==> u == m)
      && (v.Some? ==> |u.resident| == |m.resident| - 1 && v.value in Ids(m.resident))
      && (forall e :: e in u.resident <==> e in m.resident && Some(e.pageId) != v)
      && (v.None? <==> AllPinned(m.resident))
  {
    hide Without;
    var victim := SelectVictim(m.resident);
    if victim.Some? {
      WithoutFacts(m.resident, victim.value.pageId);
      var i :| 0 <= i < |m.resident| && m.resident[i] == victim.value;
      assert Ids(m.resident)[i] == victim.value.pageId;
    }
  }

  lemma AppendKeepsUnique(entries: seq<Entry>, e: Entry)
    requires Unique(entries) && forall x :: x in entries ==> x.pageId != e.pageId
    ensures Unique(entries + [e])
  {
  }

  lemma ResidentIff(entries: seq<Entry>, p: string)
    ensures p in Ids(entries) <==> exists e :: e in entries && e.pageId == p
  {
    if p in Ids(entries) {
      var k :| 0 <= k < |Ids(entries)| && Ids(entries)[k] == p;
      assert entries[k] in entries;
    }
    if e :| e in entries && e.pageId == p {
      var k :| 0 <= k < |entries| && entries[k] == e;
      assert Ids(entries)[k] == p;
    }
  }

  lemma LoadKeepsUnique(m: Manager, p: string, now: Time)
    requires Unique(m.resident)
    ensures Unique(Loaded(m, p, now).resident)
  {
    hide Evict, Ids;
    if !IsResident(m, p) {
      EvictFacts(m);
      ResidentIff(m.resident, p);
      var room := if |m.resident| >= m.maxPages then Evict(m).0 else m;
      AppendKeepsUnique(room.resident, Entry(p, now, now, 0));
    }
  }

  /** load leaves more pages than allowed, and more than before, exactly when it adds a page to a full
    manager of which every page is pinned. */
  lemma LoadOverflowsIff(m: Manager, p: string, now: Time)
    requires Unique(m.resident)
    ensures var r := Loaded(m, p, now);
      |r.resident| > m.maxPages && |r.resident| > |m.resident| <==>
      !IsResident(m, p) && |m.resident| >= m.maxPages && AllPinned(m.resident)
  {
    hide Evict;
    EvictFacts(m);
  }

  /** What load does to the list: a resident page is touched in its place; otherwise the page is added
    at the end, and the oldest unpinned entry goes if the list was full and has one. */
  ghost predicate LoadOutcome(m: Manager, p: string, now: Time, r: Manager) {
    && r.maxPages == m.maxPages
    && if exists i :: 0 <= i < |m.resident| && m.resident[i].pageId == p then
         && |r.resident| == |m.resident|
         && forall i :: 0 <= i < |m.resident| ==>
              r.resident[i] ==
              if m.resident[i].pageId == p then m.resident[i].(lastAccessed := now) else m.resident[i]
       else if |m.resident| < m.maxPages || AllPinned(m.resident) then
         r.resident == m.resident + [Entry(p, now, now, 0)]
       else
         exists k :: OldestAt(m.resident, k)
                     && r.resident == m.resident[..k] + m.resident[k + 1..] + [Entry(p, now, now, 0)]
  }

  lemma EvictedOldest(m: Manager)
    requires Unique(m.resident) && !AllPinned(m.resident)
    ensures exists k :: OldestAt(m.resident, k) && Evict(m).0.resident == m.resident[..k] + m.resident[k + 1..]
  {
    hide Without, Unique, OldestAt;
    var k := VictimIsFirstOldest(m.resident);
    OldestInRange(m.resident, k);
    WithoutAt(m.resident, k);
  }

  lemma OldestInRange(entries: seq<Entry>, k: int)
    requires OldestAt(entries, k)
    ensures 0 <= k < |entries| && entries[k] in entries && !IsPinned(entries[k])
  {
  }

  lemma TouchOutcome(m: Manager, p: string, now: Time)
    requires IsResident(m, p)
    ensures LoadOutcome(m, p, now, Touch(m, p, now)) && IsResident(Touch(m, p, now), p)
  {
    hide OldestAt, AllPinned;
    var i :| 0 <= i < |Ids(m.resident)| && Ids(m.resident)[i] == p;
    assert m.resident[i].pageId == p;
    assert Ids(Touch(m, p, now).resident)[i] == p;
  }

  lemma AppendOutcome(m: Manager, p: string, now: Time)
    requires Unique(m.resident) && !IsResident(m, p)
    ensures LoadOutcome(m, p, now, Loaded(m, p, now)) && IsResident(Loaded(m, p, now), p)
  {
    hide Evict, Unique, OldestAt;
    var r := Loaded(m, p, now);
    EvictFacts(m);
    assert forall i :: 0 <= i < |m.resident| ==> Ids(m.resident)[i] == m.resident[i].pageId;
    assert Ids(r.resident)[|r.resident| - 1] == p;
    if |m.resident| >= m.maxPages && !AllPinned(m.resident) {
      EvictedOldest(m);
    }
  }

  lemma LoadFacts(m: Manager, p: string, now: Time)
    requires Unique(m.resident)
    ensures LoadOutcome(m, p, now, Loaded(m, p, now))
    ensures Unique(Loaded(m, p, now).resident) && IsResident(Loaded(m, p, now), p)
  {
    hide Unique, LoadOutcome, Ids;
    LoadKeepsUnique(m, p, now);
    if IsResident(m, p) {
      TouchOutcome(m, p, now);
    } else {
      AppendOutcome(m, p, now);
    }
  }

  /** Afterwards the page is resident, at most the oldest unpinned page has gone, and the limit is exceeded
    only if it was before or every page is pinned. */
  method Load(m: Manager, p: string, now: Time) returns (r: Manager)
    ensures r == Loaded(m, p, now)
    ensures Unique(m.resident) ==> LoadOutcome(m, p, now, r) && Unique(r.resident) && IsResident(r, p)
    ensures Unique(m.resident) ==>
              |r.resident| <= m.maxPages || |r.resident| <= |m.resident| || AllPinned(m.resident)
  {
    hide LoadOutcome, Unique, Evict;
    if Unique(m.resident) {
      LoadFacts(m, p, now);
      LoadOverflowsIff(m, p, now);
    }
    if IsResident(m, p) {
      return Touch(m, p, now);
    }
    var manager := m;
    if |manager.resident| >= manager.maxPages {
      manager := Evict(manager).0;
    }
    r := manager.(resident := manager.resident + [Entry(p, now, now, 0)]);
  }

  // ----- the other operations -----

  /** The list with one entry changed in its place. */
  ghost predicate ChangedAt(a: seq<Entry>, b: seq<Entry>, k: int, e: Entry) {
    0 <= k < |a| && b == a[..k] + [e] + a[k + 1..]
  }

  lemma ReplacedAt(entries: seq<Entry>, k: nat, e: Entry)
    requires Unique(entries) && k < |entries|
    ensures ChangedAt(entries, ReplaceAll(entries, entries[k].pageId, e), k, e)
  {
    assert ReplaceAll(entries, entries[k].pageId, e) == entries[..k] + [e] + entries[k + 1..];
  }

  ghost predicate PinnedMoreAt(a: seq<Entry>, b: seq<Entry>, k: int, p: string) {
    0 <= k < |a| && a[k].pageId == p && ChangedAt(a, b, k, a[k].(pinCount := a[k].pinCount + 1))
  }

  /** pin adds one to the count of the page, in place, and does nothing for a page that is not resident. */
  lemma PinOutcome(m: Manager, p: string)
    requires Unique(m.resident)
    ensures Pin(m, p).maxPages == m.maxPages
    ensures if exists k :: 0 <= k < |m.resident| && m.resident[k].pageId == p then
              exists k :: PinnedMoreAt(m.resident, Pin(m, p).resident, k, p)
            else Pin(m, p) == m
  {
    hide ChangedAt, Unique;
    if k :| 0 <= k < |m.resident| && m.resident[k].pageId == p {
      GetEntryAt(m.resident, k);
      ReplacedAt(m.resident, k, m.resident[k].(pinCount := m.resident[k].pinCount + 1));
      assert PinnedMoreAt(m.resident, Pin(m, p).resident, k, p);
    } else {
      assert p !in Ids(m.resident);
    }
  }

  ghost predicate UnloadedAt(a: seq<Entry>, b: seq<Entry>, k: int, p: string) {
    && 0 <= k < |a| && a[k].pageId == p
    && if a[k].pinCount > 0 then ChangedAt(a, b, k, a[k].(pinCount := a[k].pinCount - 1))
       else b == a[..k] + a[k + 1..]
  }

  /** unload takes one off the count of a pinned page, in place, removes an unpinned one, and does nothing for
    a page that is not resident. */
  lemma UnloadOutcome(m: Manager, p: string)
    requires Unique(m.resident)
    ensures Unload(m, p).maxPages == m.maxPages
    ensures if exists k :: 0 <= k < |m.resident| && m.resident[k].pageId == p then
              exists k :: UnloadedAt(m.resident, Unload(m, p).resident, k, p)
            else Unload(m, p) == m
  {
    hide ChangedAt, Unique, Without;
    if k :| 0 <= k < |m.resident| && m.resident[k].pageId == p {
      GetEntryAt(m.resident, k);
      ReplacedAt(m.resident, k, m.resident[k].(pinCount := m.resident[k].pinCount - 1));
      WithoutAt(m.resident, k);
      assert UnloadedAt(m.resident, Unload(m, p).resident, k, p);
    } else {
      assert p !in Ids(m.resident);
    }
  }

  /** touch sets the access time of the page and nothing else. */
  lemma TouchExact(m: Manager, p: string, now: Time)
    ensures var r := Touch(m, p, now);
      && r.maxPages == m.maxPages && |r.resident| == |m.resident|
      && forall i :: 0 <= i < |m.resident| ==>
           && r.resident[i].pageId == m.resident[i].pageId && r.resident[i].loadedAt == m.resident[i].loadedAt
           && r.resident[i].pinCount == m.resident[i].pinCount
           && r.resident[i].lastAccessed == if m.resident[i].pageId == p then now else m.resident[i].lastAccessed
  {
    var touched := Touched(m.resident, p, now);
    assert forall i :: 0 <= i < |m.resident| ==>
        touched[i] == if m.resident[i].pageId == p then m.resident[i].(lastAccessed := now) else m.resident[i];
  }

  /** evict takes out exactly the oldest unpinned page and names it, or changes nothing if every page is pinned. */
  lemma EvictOutcome(m: Manager)
    requires Unique(m.resident)
    ensures var (r, v) := Evict(m);
      && r.maxPages == m.maxPages
      && if AllPinned(m.resident) then r == m && v.None?
         else exists k :: OldestAt(m.resident, k)
                && r.resident == m.resident[..k] + m.resident[k + 1..] && v == Some(m.resident[k].pageId)
  {
    hide Without, Unique, OldestAt;
    if !AllPinned(m.resident) {
      var k := VictimIsFirstOldest(m.resident);
      OldestInRange(m.resident, k);
      WithoutAt(m.resident, k);
    }
  }

  // ----- runs -----

  datatype Op = LoadPage(pageId: string) | PinPage(pageId: string) | UnloadPage(pageId: string)
    | TouchPage(pageId: string)
    | EvictOne | EvictEverything

  /** evict_all, one eviction after another. */
  function EvictAll(m: Manager): Manager
    requires Unique(m.resident)
    decreases |m.resident|
  {
    EvictFacts(m);
    if |m.resident| > 0 && Evict(m).1.Some? then EvictAll(Evict(m).0) else m
  }

  lemma {:induction false} EvictAllKeepsUnique(m: Manager)
    requires Unique(m.resident)
    ensures Unique(EvictAll(m).resident)
    decreases |m.resident|
  {
    hide Evict;
    EvictFacts(m);
    if |m.resident| > 0 && Evict(m).1.Some? {
      EvictAllKeepsUnique(Evict(m).0);
    }
  }

  function Apply(m: Manager, op: Op, now: Time): (r: Manager)
    requires Unique(m.resident)
    ensures Unique(r.resident)
  {
    match op
    case LoadPage(p) => LoadKeepsUnique(m, p, now); Loaded(m, p, now)
    case PinPage(p) => Pin(m, p)
    case UnloadPage(p) => WithoutFacts(m.resident, p); Unload(m, p)
    case TouchPage(p) => Touch(m, p, now)
    case EvictOne => EvictFacts(m); Evict(m).0
    case EvictEverything => EvictAllKeepsUnique(m); EvictAll(m)
  }

  /** The manager after some operations; clock(i) is the time of the i-th. Page ids stay unique. */
  function Run(m: Manager, ops: seq<Op>, clock: nat -> Time): (r: Manager)
    requires Unique(m.resident)
    ensures Unique(r.resident)
    decreases |ops|
  {
    if ops == [] then m
    else Apply(Run(m, ops[..|ops| - 1], clock), ops[|ops| - 1], clock(|ops| - 1))
  }

  // ----- pins -----

  /** Pins minus unloads of a page. */
  function Balance(ops: seq<Op>, p: string): int
    decreases |ops|
  {
    if ops == [] then 0
    else
      var last := ops[|ops| - 1];
      Balance(ops[..|ops| - 1], p) + if last == PinPage(p) then 1 else if last == UnloadPage(p) then -1 else 0
  }

  /** The page is resident with this pin count. */
  ghost predicate PinnedTimes(m: Manager, p: string, count: int) {
    exists i :: 0 <= i < |m.resident| && m.resident[i].pageId == p && m.resident[i].pinCount == count
  }

  lemma EvictKeepsPinned(m: Manager, p: string, count: int)
    requires Unique(m.resident) && PinnedTimes(m, p, count) && count > 0
    ensures PinnedTimes(Evict(m).0, p, count)
  {
    EvictFacts(m);
    var i :| 0 <= i < |m.resident| && m.resident[i].pageId == p && m.resident[i].pinCount == count;
    var u := Evict(m).0;
    var victim := SelectVictim(m.resident);
    if victim.Some? {
      var j :| 0 <= j < |m.resident| && m.resident[j] == victim.value;
      assert i != j;
      assert m.resident[i] in u.resident;
    }
  }

  lemma {:induction false} EvictAllKeepsPinned(m: Manager, p: string, count: int)
    requires Unique(m.resident) && PinnedTimes(m, p, count) && count > 0
    ensures PinnedTimes(EvictAll(m), p, count)
    decreases |m.resident|
  {
    hide Evict;
    EvictFacts(m);
    if |m.resident| > 0 && Evict(m).1.Some? {
      EvictKeepsPinned(m, p, count);
      EvictAllKeepsPinned(Evict(m).0, p, count);
    }
  }

  lemma GetEntryAt(entries: seq<Entry>, i: nat)
    requires Unique(entries) && i < |entries|
    ensures GetEntry(entries, entries[i].pageId) == Some(entries[i])
  {
    assert Ids(entries)[i] == entries[i].pageId;
    var e := GetEntry(entries, entries[i].pageId).value;
    var j :| 0 <= j < |entries| && entries[j] == e;
  }

  lemma LoadKeepsPinned(m: Manager, q: string, now: Time, p: string, count: int)
    requires Unique(m.resident) && PinnedTimes(m, p, count) && count > 0
    ensures PinnedTimes(Loaded(m, q, now), p, count)
  {
    hide Evict;
    if IsResident(m, q) {
      var i :| 0 <= i < |m.resident| && m.resident[i].pageId == p && m.resident[i].pinCount == count;
      assert Touch(m, q, now).resident[i].pinCount == count;
    } else {
      EvictKeepsPinned(m, p, count);
      var room := if |m.resident| >= m.maxPages then Evict(m).0 else m;
      var j :| 0 <= j < |room.resident| && room.resident[j].pageId == p && room.resident[j].pinCount == count;
      assert Loaded(m, q, now).resident[j] == room.resident[j];
    }
  }

  lemma PinStep(m: Manager, q: string, p: string, count: int)
    requires Unique(m.resident) && PinnedTimes(m, p, count)
    ensures PinnedTimes(Pin(m, q), p, if q == p then count + 1 else count)
  {
    var i :| 0 <= i < |m.resident| && m.resident[i].pageId == p && m.resident[i].pinCount == count;
    GetEntryAt(m.resident, i);
    hide GetEntry, Unique, Ids;
    var e := m.resident[i];
    assert Pin(m, q).resident[i] == if q == p then e.(pinCount := count + 1) else e;
  }

  /** An unload of a pinned page only lowers its pin count. */
  lemma UnloadPinned(m: Manager, i: nat)
    requires Unique(m.resident) && i < |m.resident| && m.resident[i].pinCount > 0
    ensures PinnedTimes(Unload(m, m.resident[i].pageId), m.resident[i].pageId, m.resident[i].pinCount - 1)
  {
    GetEntryAt(m.resident, i);
    hide GetEntry, Unique, Ids, Without;
    var e := m.resident[i];
    assert Unload(m, e.pageId).resident[i] == e.(pinCount := e.pinCount - 1);
  }

  /** An unload of another page leaves the entry. */
  lemma UnloadOther(m: Manager, q: string, i: nat)
    requires i < |m.resident| && m.resident[i].pageId != q
    ensures PinnedTimes(Unload(m, q), m.resident[i].pageId, m.resident[i].pinCount)
  {
    hide GetEntry, Ids, Without;
    var e, r := GetEntry(m.resident, q), Unload(m, q);
    if e.None? || e.value.pinCount > 0 {
      assert r.resident[i] == m.resident[i];
    } else {
      WithoutMembers(m.resident, q);
      var j :| 0 <= j < |r.resident| && r.resident[j] == m.resident[i];
    }
  }

  lemma UnloadStep(m: Manager, q: string, p: string, count: int)
    requires Unique(m.resident) && PinnedTimes(m, p, count) && count > 0
    ensures PinnedTimes(Unload(m, q), p, if q == p then count - 1 else count)
  {
    var i :| 0 <= i < |m.resident| && m.resident[i].pageId == p && m.resident[i].pinCount == count;
    hide Unload, Unique;
    if q == p {
      UnloadPinned(m, i);
    } else {
      UnloadOther(m, q, i);
    }
  }

  lemma ApplyKeepsPinned(m: Manager, op: Op, now: Time, p: string, count: int)
    requires Unique(m.resident) && PinnedTimes(m, p, count) && count > 0
    ensures PinnedTimes(Apply(m, op, now), p, count + Balance([op], p))
  {
    hide Evict, EvictAll, Without, Pin, Unload, Loaded, PinnedTimes;
    assert [op][..0] == [];
    match op
    case LoadPage(q) => LoadKeepsPinned(m, q, now, p, count);
    case PinPage(q) => PinStep(m, q, p, count);
    case UnloadPage(q) => UnloadStep(m, q, p, count);
    case TouchPage(q) => TouchKeepsPinned(m, q, now, p, count);
    case EvictOne => EvictKeepsPinned(m, p, count);
    case EvictEverything => EvictAllKeepsPinned(m, p, count);
  }

  lemma TouchKeepsPinned(m: Manager, q: string, now: Time, p: string, count: int)
    requires PinnedTimes(m, p, count)
    ensures PinnedTimes(Touch(m, q, now), p, count)
  {
    var i :| 0 <= i < |m.resident| && m.resident[i].pageId == p && m.resident[i].pinCount == count;
    assert Touch(m, q, now).resident[i].pageId == p;
  }

  lemma BalanceSnoc(ops: seq<Op>, p: string)
    requires ops != []
    ensures Balance(ops, p) == Balance(ops[..|ops| - 1], p) + Balance([ops[|ops| - 1]], p)
  {
    assert [ops[|ops| - 1]][..0] == [];
  }

  /** As long as the pins of a resident page outnumber the unloads, it stays resident and its pin count is
    the difference, whatever is loaded, touched or evicted in between. */
  lemma {:induction false} PinnedPageStays(m: Manager, ops: seq<Op>, clock: nat -> Time, p: string, count: int)
    requires Unique(m.resident) && PinnedTimes(m, p, count)
    requires forall k :: 0 <= k <= |ops| ==> count + Balance(ops[..k], p) > 0
    ensures PinnedTimes(Run(m, ops, clock), p, count + Balance(ops, p))
    decreases |ops|
  {
    hide Apply;
    assert ops[..|ops|] == ops;
    if ops != [] {
      var init := ops[..|ops| - 1];
      assert forall k :: 0 <= k <= |init| ==> init[..k] == ops[..k];
      PinnedPageStays(m, init, clock, p, count);
      BalanceSnoc(ops, p);
      assert init[..|init|] == init;
      ApplyKeepsPinned(Run(m, init, clock), ops[|ops| - 1], clock(|ops| - 1), p, count + Balance(init, p));
    }
  }

  // ----- evict_all -----

  function PinnedOnly(entries: seq<Entry>): seq<Entry> {
    if entries == [] then []
    else (if IsPinned(entries[0]) then [entries[0]] else []) + PinnedOnly(entries[1..])
  }

  /** Exactly the pinned entries, in order. */
  ghost predicate PinnedAt(entries: seq<Entry>, ks: seq<nat>, r: seq<Entry>) {
    PickedAt(entries, ks, r) && forall k :: 0 <= k < |entries| ==> (k in ks <==> entries[k].pinCount > 0)
  }

  lemma PinnedCons(e: Entry, rest: seq<Entry>, ks: seq<nat>, r: seq<Entry>, take: bool)
    requires PinnedAt(rest, ks, r) && (take <==> e.pinCount > 0)
    ensures take ==> PinnedAt([e] + rest, [0] + Later(ks), [e] + r)
    ensures !take ==> PinnedAt([e] + rest, Later(ks), r)
  {
    hide PickedAt;
    PickFirst(e, rest, ks, r, take);
    var ls := if take then [0] + Later(ks) else Later(ks);
    forall k | 0 <= k < |rest| + 1 ensures k in ls <==> ([e] + rest)[k].pinCount > 0 {
      if k > 0 { assert ([e] + rest)[k] == rest[k - 1] && ((k - 1) + 1 in ls <==> k - 1 in ks); }
    }
  }

  lemma {:induction false} PinnedOnlyExact(entries: seq<Entry>) returns (ks: seq<nat>)
    ensures PinnedAt(entries, ks, PinnedOnly(entries))
  {
    if entries == [] {
      ks := [];
    } else {
      hide PinnedAt;
      var e, rest := entries[0], entries[1..];
      var later := PinnedOnlyExact(rest);
      PinnedCons(e, rest, later, PinnedOnly(rest), e.pinCount > 0);
      assert entries == [e] + rest && [] + PinnedOnly(rest) == PinnedOnly(rest);
      ks := if e.pinCount > 0 then [0] + Later(later) else Later(later);
    }
  }

  lemma {:induction false} PinnedOnlyOfPinned(entries: seq<Entry>)
    requires forall i :: 0 <= i < |entries| ==> IsPinned(entries[i])
    ensures PinnedOnly(entries) == entries
  {
    if entries != [] {
      PinnedOnlyOfPinned(entries[1..]);
    }
  }

  lemma {:induction false} PinnedOnlyWithout(entries: seq<Entry>, p: string)
    requires forall i :: 0 <= i < |entries| && entries[i].pageId == p ==> !IsPinned(entries[i])
    ensures PinnedOnly(Without(entries, p)) == PinnedOnly(entries)
  {
    if entries != [] {
      var tail := Without(entries[1..], p);
      PinnedOnlyWithout(entries[1..], p);
      if entries[0].pageId == p {
        assert Without(entries, p) == tail;
      } else {
        assert Without(entries, p)[1..] == tail;
      }
    }
  }

  lemma EvictKeepsPinnedOnly(m: Manager)
    requires Unique(m.resident)
    ensures PinnedOnly(Evict(m).0.resident) == PinnedOnly(m.resident)
    ensures Evict(m).1.None? ==> PinnedOnly(m.resident) == m.resident
  {
    var victim := SelectVictim(m.resident);
    if victim.Some? {
      var j :| 0 <= j < |m.resident| && m.resident[j] == victim.value;
      PinnedOnlyWithout(m.resident, victim.value.pageId);
    } else {
      PinnedOnlyOfPinned(m.resident);
    }
  }

  /** evict_all leaves exactly the pinned pages, in order. */
  lemma {:induction false} EvictAllLeavesPinned(m: Manager)
    requires Unique(m.resident)
    ensures EvictAll(m).resident == PinnedOnly(m.resident) && EvictAll(m).maxPages == m.maxPages
    decreases |m.resident|
  {
    hide Evict;
    EvictFacts(m);
    EvictKeepsPinnedOnly(m);
    if |m.resident| > 0 && Evict(m).1.Some? {
      EvictAllLeavesPinned(Evict(m).0);
    }
  }

  method EvictAllPages(m: Manager) returns (r: Manager)
    requires Unique(m.resident)
    ensures r.resident == PinnedOnly(m.resident) && r == EvictAll(m)
    ensures exists ks :: PinnedAt(m.resident, ks, r.resident)
  {
    hide Evict, PinnedAt;
    ghost var ks := PinnedOnlyExact(m.resident);
    r := m;
    EvictAllLeavesPinned(m);
    while |r.resident| > 0
      invariant Unique(r.resident) && EvictAll(r) == EvictAll(m)
      decreases |r.resident|
    {
      EvictFacts(r);
      var (next, victim) := Evict(r);
      if victim.None? {
        break;
      }
      r := next;
    }
  }

  // ----- LRU -----

  /** Loading pages one after another into an empty manager; clock(i) is the time of the i-th load. */
  function LoadTrace(n: int, trace: seq<string>, clock: nat -> Time): Manager
    decreases |trace|
  {
    if trace == [] then Manager(n, [])
    else Loaded(LoadTrace(n, trace[..|trace| - 1], clock), trace[|trace| - 1], clock(|trace| - 1))
  }

  /** The position of the last load of a page, -1 if there is none. */
  function LastLoad(trace: seq<string>, p: string): (k: int)
    ensures -1 <= k < |trace|
    ensures k == -1 <==> p !in trace
    ensures k >= 0 ==> trace[k] == p && p !in trace[k + 1..]
    decreases |trace|
  {
    if trace == [] then -1
    else
      var init := trace[..|trace| - 1];
      assert trace == init + [trace[|trace| - 1]];
      if trace[|trace| - 1] == p then |trace| - 1
      else
        var k := LastLoad(init, p);
        assert k >= 0 ==> trace[k + 1..] == init[k + 1..] + [trace[|trace| - 1]];
        k
  }

  function Remove(pages: seq<string>, p: string): seq<string> {
    if pages == [] then []
    else (if pages[0] == p then [] else [pages[0]]) + Remove(pages[1..], p)
  }

  /** The distinct pages of a trace, the most recently loaded first. */
  function Recency(trace: seq<string>): seq<string>
    decreases |trace|
  {
    if trace == [] then []
    else [trace[|trace| - 1]] + Remove(Recency(trace[..|trace| - 1]), trace[|trace| - 1])
  }

  lemma {:induction false} RemoveAbsent(pages: seq<string>, p: string)
    requires p !in pages
    ensures Remove(pages, p) == pages
  {
    if pages != [] {
      RemoveAbsent(pages[1..], p);
    }
  }

  lemma {:induction false} RemoveAt(pages: seq<string>, k: nat)
    requires k < |pages| && forall i, j :: 0 <= i < j < |pages| ==> pages[i] != pages[j]
    ensures Remove(pages, pages[k]) == pages[..k] + pages[k + 1..]
    decreases k
  {
    if k == 0 {
      RemoveAbsent(pages[1..], pages[0]);
    } else {
      RemoveAt(pages[1..], k - 1);
      assert pages[1..][..k - 1] == pages[..k][1..] && pages[1..][k..] == pages[k + 1..];
      assert pages[..k] == [pages[0]] + pages[..k][1..];
    }
  }

  /** The order lists exactly the loaded pages, by falling time of their last load. */
  ghost predicate Ordered(pages: seq<string>, trace: seq<string>) {
    && (forall i :: 0 <= i < |pages| ==> pages[i] in trace)
    && (forall i, j :: 0 <= i < j < |pages| ==> LastLoad(trace, pages[i]) > LastLoad(trace, pages[j]))
    && (forall p :: p in trace ==> p in pages)
  }

  /** `pages` is `before` with x moved, or put, to the front; k is where x was. */
  ghost predicate MovedToFront(before: seq<string>, pages: seq<string>, x: string, k: nat) {
    && k <= |before|
    && (k < |before| ==> before[k] == x)
    && (forall i :: 0 <= i < |before| && i != k ==> before[i] != x)
    && |pages| == |before| + (if k == |before| then 1 else 0)
    && pages[0] == x
    && forall i :: 0 < i < |pages| ==> pages[i] == before[if i <= k then i - 1 else i]
  }

  lemma RecencyStep(before: seq<string>, x: string) returns (k: nat)
    requires forall i, j :: 0 <= i < j < |before| ==> before[i] != before[j]
    ensures MovedToFront(before, [x] + Remove(before, x), x, k)
  {
    if x in before {
      k :| 0 <= k < |before| && before[k] == x;
      RemoveAt(before, k);
    } else {
      k := |before|;
      RemoveAbsent(before, x);
    }
  }

  lemma LastLoadSnoc(init: seq<string>, x: string, p: string)
    ensures LastLoad(init + [x], p) == if x == p then |init| else LastLoad(init, p)
  {
    assert (init + [x])[..|init|] == init;
  }

  lemma OrderedDistinct(pages: seq<string>, trace: seq<string>)
    requires Ordered(pages, trace)
    ensures forall i, j :: 0 <= i < j < |pages| ==> pages[i] != pages[j]
  {
    hide LastLoad;
  }

  lemma {:induction false} RecencyOrdered(trace: seq<string>)
    ensures Ordered(Recency(trace), trace)
    decreases |trace|
  {
    if trace != [] {
      var init, x := trace[..|trace| - 1], trace[|trace| - 1];
      RecencyOrdered(init);
      OrderedDistinct(Recency(init), init);
      var k := RecencyStep(Recency(init), x);
      assert trace == init + [x];
      FrontDescends(Recency(init), Recency(trace), init, x, k);
      FrontCovers(Recency(init), Recency(trace), init, x, k);
    }
  }

  lemma FrontDescends(before: seq<string>, pages: seq<string>, init: seq<string>, x: string, k: nat)
    requires Ordered(before, init) && MovedToFront(before, pages, x, k)
    ensures forall i, j :: 0 <= i < j < |pages| ==> LastLoad(init + [x], pages[i]) > LastLoad(init + [x], pages[j])
  {
    hide LastLoad;
    forall i | 0 <= i < |pages|
      ensures LastLoad(init + [x], pages[i]) == if i == 0 then |init| else LastLoad(init, pages[i])
    {
      LastLoadSnoc(init, x, pages[i]);
    }
  }

  lemma FrontCovers(before: seq<string>, pages: seq<string>, init: seq<string>, x: string, k: nat)
    requires Ordered(before, init) && MovedToFront(before, pages, x, k)
    ensures forall i :: 0 <= i < |pages| ==> pages[i] in init + [x]
    ensures forall p :: p in init + [x] ==> p in pages
  {
    hide LastLoad;
    forall p | p in init + [x] ensures p in pages {
      if p == x {
        assert pages[0] == p;
      } else {
        assert p in before;
        var i :| 0 <= i < |before| && before[i] == p;
        assert pages[if i < k then i + 1 else i] == p;
      }
    }
  }

  function Min(a: int, b: int): int {
    if a < b then a else b
  }

  /** The manager holds the first n pages of the order, unpinned and stamped with their last load. */
  ghost predicate Caches(m: Manager, n: int, pages: seq<string>, trace: seq<string>, clock: nat -> Time) {
    && m.maxPages == n && Unique(m.resident)
    && |m.resident| == Min(n, |pages|)
    && (forall i :: 0 <= i < |m.resident| ==> Current(m.resident[i], trace, clock))
    && (forall i :: 0 <= i < |m.resident| ==> m.resident[i].pageId in pages[..|m.resident|])
    && (forall k :: 0 <= k < |m.resident| ==> pages[k] in Ids(m.resident))
  }

  ghost predicate Current(e: Entry, trace: seq<string>, clock: nat -> Time) {
    e.pinCount == 0 && LastLoad(trace, e.pageId) >= 0 && e.lastAccessed == clock(LastLoad(trace, e.pageId))
  }

  ghost predicate Increasing(clock: nat -> Time) {
    forall i: nat, j: nat :: i < j ==> clock(i) < clock(j)
  }

  /** A page keeps its last load, except the one that is loaded. */
  lemma StillCurrent(e: Entry, init: seq<string>, x: string, clock: nat -> Time)
    requires Current(e, init, clock) && e.pageId != x
    ensures Current(e, init + [x], clock)
  {
    LastLoadSnoc(init, x, e.pageId);
  }

  lemma NowCurrent(e: Entry, init: seq<string>, clock: nat -> Time)
    requires e.pinCount == 0 && e.lastAccessed == clock(|init|)
    ensures Current(e, init + [e.pageId], clock)
  {
    LastLoadSnoc(init, e.pageId, e.pageId);
  }

  /** Moving one of the first c pages to the front permutes these. */
  lemma FrontPermutes(before: seq<string>, pages: seq<string>, x: string, k: nat, c: nat)
    requires MovedToFront(before, pages, x, k) && k < c <= |before|
    ensures c <= |pages|
    ensures forall i :: 0 <= i < c ==> before[i] in pages[..c]
    ensures forall i :: 0 <= i < c ==> pages[i] in before[..c]
  {
    forall j | 0 <= j < c ensures before[j] in pages[..c] {
      assert pages[..c][if j < k then j + 1 else if j == k then 0 else j] == before[j];
    }
    forall i | 0 <= i < c ensures pages[i] in before[..c] {
      assert before[..c][if i == 0 then k else if i <= k then i - 1 else i] == pages[i];
    }
  }

  lemma TouchCaches(
    m: Manager, n: int, before: seq<string>, pages: seq<string>, init: seq<string>, x: string, k: nat,
    clock: nat -> Time)
    requires n >= 1 && Caches(m, n, before, init, clock) && MovedToFront(before, pages, x, k)
    requires IsResident(m, x)
    ensures Caches(Touch(m, x, clock(|init|)), n, pages, init + [x], clock)
  {
    var r := Touch(m, x, clock(|init|));
    var c := |m.resident|;
    var i0 :| 0 <= i0 < c && Ids(m.resident)[i0] == x;
    assert m.resident[i0].pageId in before[..c];
    PlaceOfFront(before, pages, x, k, c);
    FrontPermutes(before, pages, x, k, c);
    hide Current, LastLoad, MovedToFront;
    assert Ids(r.resident) == Ids(m.resident);
    forall i | 0 <= i < c ensures Current(r.resident[i], init + [x], clock) && r.resident[i].pageId in pages[..c] {
      TouchedCurrent(m.resident[i], init, x, clock);
      assert m.resident[i].pageId in before[..c];
    }
    forall i | 0 <= i < c ensures pages[i] in Ids(r.resident) {
      assert pages[i] in before[..c];
    }
  }

  lemma PlaceOfFront(before: seq<string>, pages: seq<string>, x: string, k: nat, c: nat)
    requires MovedToFront(before, pages, x, k) && c <= |before| && x in before[..c]
    ensures k < c
  {
  }

  lemma TouchedCurrent(e: Entry, init: seq<string>, x: string, clock: nat -> Time)
    requires Current(e, init, clock)
    ensures Current(if e.pageId == x then e.(lastAccessed := clock(|init|)) else e, init + [x], clock)
  {
    if e.pageId == x {
      NowCurrent(e.(lastAccessed := clock(|init|)), init, clock);
    } else {
      StillCurrent(e, init, x, clock);
    }
  }

  lemma AppendCaches(
    m: Manager, n: int, before: seq<string>, pages: seq<string>, init: seq<string>, x: string, k: nat,
    clock: nat -> Time)
    requires n >= 1 && Caches(m, n, before, init, clock) && MovedToFront(before, pages, x, k)
    requires !IsResident(m, x) && |m.resident| < n
    ensures Caches(Loaded(m, x, clock(|init|)), n, pages, init + [x], clock)
  {
    hide Current, LastLoad;
    var c := |m.resident|;
    var e := Entry(x, clock(|init|), clock(|init|), 0);
    var r := m.resident + [e];
    assert Loaded(m, x, clock(|init|)).resident == r;
    assert forall i :: 0 <= i < c ==> before[i] in Ids(m.resident);
    LoadKeepsUnique(m, x, clock(|init|));
    NowCurrent(e, init, clock);
    forall i | 0 <= i < c + 1 ensures Current(r[i], init + [x], clock) && r[i].pageId in pages[..c + 1] {
      if i < c {
        assert Ids(m.resident)[i] == r[i].pageId;
        StillCurrent(r[i], init, x, clock);
        var j :| 0 <= j < c && before[j] == m.resident[i].pageId;
        assert pages[j + 1] == before[j];
      } else {
        assert pages[0] == x;
      }
    }
    assert Ids(r) == Ids(m.resident) + [x];
    forall i | 0 <= i < c + 1 ensures pages[i] in Ids(r) {
      if i > 0 { assert before[i - 1] in Ids(m.resident); } else { assert Ids(r)[c] == x; }
    }
  }

  lemma StampsDescend(pages: seq<string>, trace: seq<string>, clock: nat -> Time, i: nat, j: nat)
    requires Ordered(pages, trace) && Increasing(clock) && i < j < |pages|
    ensures 0 <= LastLoad(trace, pages[j]) < LastLoad(trace, pages[i])
    ensures clock(LastLoad(trace, pages[j])) < clock(LastLoad(trace, pages[i]))
  {
    hide LastLoad;
  }

  /** The entry of the k-th page of the order. */
  lemma EntryOfPage(
    m: Manager, n: int, pages: seq<string>, trace: seq<string>, clock: nat -> Time, k: nat) returns (i: nat)
    requires Caches(m, n, pages, trace, clock) && k < |m.resident|
    ensures i < |m.resident| <= |pages| && m.resident[i].pageId == pages[k] && Current(m.resident[i], trace, clock)
  {
    hide Current;
    i :| 0 <= i < |m.resident| && Ids(m.resident)[i] == pages[k];
  }

  /** The victim of a full cache is the last page of the order. */
  lemma VictimIsOldest(m: Manager, n: int, pages: seq<string>, trace: seq<string>, clock: nat -> Time)
    requires n >= 1 && Caches(m, n, pages, trace, clock) && Ordered(pages, trace) && |m.resident| == n
      && Increasing(clock)
    ensures SelectVictim(m.resident).Some? && SelectVictim(m.resident).value.pageId == pages[n - 1]
  {
    hide LastLoad, SelectVictim, Ordered, Increasing, Caches;
    var o := EntryOfPage(m, n, pages, trace, clock, n - 1);
    assert !IsPinned(m.resident[o]);
    var v := SelectVictim(m.resident).value;
    var i :| 0 <= i < n && m.resident[i] == v;
    var j := PageOfEntry(m, n, pages, trace, clock, i);
    if j < n - 1 {
      StampsDescend(pages, trace, clock, j, n - 1);
    }
  }

  lemma PageOfEntry(
    m: Manager, n: int, pages: seq<string>, trace: seq<string>, clock: nat -> Time, i: nat) returns (j: nat)
    requires Caches(m, n, pages, trace, clock) && i < |m.resident|
    ensures j < |m.resident| && |m.resident| <= |pages| && m.resident[i].pageId == pages[j]
    ensures Current(m.resident[i], trace, clock)
  {
    hide Current;
    j :| 0 <= j < |m.resident| && pages[..|m.resident|][j] == m.resident[i].pageId;
  }

  /** What is left after the eviction: the first n - 1 pages of the order. */
  lemma KeptPages(m: Manager, n: int, before: seq<string>, init: seq<string>, clock: nat -> Time)
    requires n >= 1 && Caches(m, n, before, init, clock) && Ordered(before, init) && |m.resident| == n
    ensures var kept := Without(m.resident, before[n - 1]);
      && Unique(kept) && |kept| == n - 1
      && (forall i :: 0 <= i < n - 1 ==> kept[i] in m.resident && kept[i].pageId in before[..n - 1])
      && (forall i :: 0 <= i < n - 1 ==> before[i] in Ids(kept))
  {
    hide Current, LastLoad, Ordered, Without;
    var last := before[n - 1];
    var kept := Without(m.resident, last);
    assert last in Ids(m.resident);
    WithoutFacts(m.resident, last);
    OrderedDistinct(before, init);
    forall i | 0 <= i < n - 1 ensures kept[i] in m.resident && kept[i].pageId in before[..n - 1] {
      assert kept[i] in kept;
      var o :| 0 <= o < n && m.resident[o] == kept[i];
      var j :| 0 <= j < n && before[j] == m.resident[o].pageId;
      assert before[..n - 1][j] == kept[i].pageId;
    }
    forall i | 0 <= i < n - 1 ensures before[i] in Ids(kept) {
      assert before[i] in Ids(m.resident);
      ResidentIff(m.resident, before[i]);
      ResidentIff(kept, before[i]);
    }
  }

  lemma EvictCaches(
    m: Manager, n: int, before: seq<string>, pages: seq<string>, init: seq<string>, x: string, k: nat,
    clock: nat -> Time)
    requires n >= 1 && Caches(m, n, before, init, clock) && Ordered(before, init) && MovedToFront(before, pages, x, k)
    requires !IsResident(m, x) && |m.resident| == n && Increasing(clock)
    ensures Caches(Loaded(m, x, clock(|init|)), n, pages, init + [x], clock)
  {
    hide Current, LastLoad, SelectVictim, Ordered, Increasing, Without, Unique, MovedToFront;
    VictimIsOldest(m, n, before, init, clock);
    KeptPages(m, n, before, init, clock);
    LoadKeepsUnique(m, x, clock(|init|));
    var e := Entry(x, clock(|init|), clock(|init|), 0);
    var kept := Without(m.resident, before[n - 1]);
    assert Loaded(m, x, clock(|init|)).resident == kept + [e];
    assert Loaded(m, x, clock(|init|)).maxPages == n;
    KeptCurrent(m, kept, init, x, clock);
    NowCurrent(e, init, clock);
    PlaceBeyond(m, n, before, pages, x, k);
    KeptInFront(kept, e, n, before, pages, x, k);
  }

  /** A page that is not resident was not among the first n, so the order stays at least n long. */
  lemma PlaceBeyond(m: Manager, n: int, before: seq<string>, pages: seq<string>, x: string, k: nat)
    requires 0 <= n <= |before| && MovedToFront(before, pages, x, k) && !IsResident(m, x)
    requires forall i :: 0 <= i < n ==> before[i] in Ids(m.resident)
    ensures n <= k && n <= |pages|
  {
  }

  lemma KeptCurrent(m: Manager, kept: seq<Entry>, init: seq<string>, x: string, clock: nat -> Time)
    requires !IsResident(m, x) && forall i :: 0 <= i < |m.resident| ==> Current(m.resident[i], init, clock)
    requires forall i :: 0 <= i < |kept| ==> kept[i] in m.resident
    ensures forall i :: 0 <= i < |kept| ==> Current(kept[i], init + [x], clock)
  {
    hide Current;
    forall i | 0 <= i < |kept| ensures Current(kept[i], init + [x], clock) {
      var o :| 0 <= o < |m.resident| && m.resident[o] == kept[i];
      assert Ids(m.resident)[o] == kept[i].pageId;
      StillCurrent(kept[i], init, x, clock);
    }
  }

  lemma FrontShift(before: seq<string>, pages: seq<string>, x: string, k: nat, n: int)
    requires MovedToFront(before, pages, x, k) && 1 <= n <= k && n <= |pages|
    ensures pages[..n] == [x] + before[..n - 1]
  {
  }

  lemma KeptInFront(kept: seq<Entry>, e: Entry, n: int, before: seq<string>, pages: seq<string>, x: string, k: nat)
    requires n >= 1 && |kept| == n - 1 && n <= k && n <= |pages| && e.pageId == x && MovedToFront(before, pages, x, k)
    requires forall i :: 0 <= i < n - 1 ==> kept[i].pageId in before[..n - 1]
    requires forall i :: 0 <= i < n - 1 ==> before[i] in Ids(kept)
    ensures forall i :: 0 <= i < n ==> (kept + [e])[i].pageId in pages[..n]
    ensures forall i :: 0 <= i < n ==> pages[i] in Ids(kept + [e])
  {
    FrontShift(before, pages, x, k, n);
    hide MovedToFront;
    assert Ids(kept + [e]) == Ids(kept) + [x];
    forall i | 0 <= i < n ensures pages[i] in Ids(kept) + [x] {
      assert pages[..n][i] == if i == 0 then x else before[i - 1];
    }
  }

  /** The cache follows the order: it always holds the n most recent pages. */
  lemma {:induction false} TraceCaches(n: int, trace: seq<string>, clock: nat -> Time)
    requires n >= 1 && Increasing(clock)
    ensures Caches(LoadTrace(n, trace, clock), n, Recency(trace), trace, clock)
    decreases |trace|
  {
    hide Current, LastLoad, Ordered, Increasing, MovedToFront, Loaded, Remove, IsResident;
    if trace != [] {
      var init, x := trace[..|trace| - 1], trace[|trace| - 1];
      assert trace == init + [x];
      var m, before, pages := LoadTrace(n, init, clock), Recency(init), Recency(trace);
      TraceCaches(n, init, clock);
      RecencyOrdered(init);
      OrderedDistinct(before, init);
      var k := RecencyStep(before, x);
      CachesSize(m, n, before, init, clock);
      if IsResident(m, x) {
        TouchCaches(m, n, before, pages, init, x, k, clock);
        LoadResident(m, x, clock(|init|));
      } else if |m.resident| < n {
        AppendCaches(m, n, before, pages, init, x, k, clock);
      } else {
        EvictCaches(m, n, before, pages, init, x, k, clock);
      }
    }
  }

  lemma CachesSize(m: Manager, n: int, pages: seq<string>, trace: seq<string>, clock: nat -> Time)
    requires Caches(m, n, pages, trace, clock)
    ensures |m.resident| <= n
  {
    hide Current;
  }

  lemma LoadResident(m: Manager, x: string, now: Time)
    requires IsResident(m, x)
    ensures Loaded(m, x, now) == Touch(m, x, now)
  {
  }

  // ----- the cache without its mechanism -----

  /** The distinct pages loaded after the last load of p. */
  function LoadedAfter(trace: seq<string>, p: string): set<string> {
    PagesOf(trace[LastLoad(trace, p) + 1..])
  }

  function PagesOf(pages: seq<string>): set<string> {
    set q | q in pages
  }

  lemma {:induction false} LaterIffInSuffix(trace: seq<string>, k: int, q: string)
    requires -1 <= k < |trace|
    ensures q in trace[k + 1..] <==> LastLoad(trace, q) > k
  {
    var j := LastLoad(trace, q);
    if j > k {
      assert trace[k + 1..][j - k - 1] == q;
    } else {
      assert trace[k + 1..] == trace[j + 1..][k - j..];
    }
  }

  lemma {:induction false} DistinctCardinality(pages: seq<string>)
    requires forall i, j :: 0 <= i < j < |pages| ==> pages[i] != pages[j]
    ensures |PagesOf(pages)| == |pages|
  {
    if pages == [] {
      assert PagesOf(pages) == {};
    } else {
      DistinctCardinality(pages[1..]);
      assert PagesOf(pages) == PagesOf(pages[1..]) + {pages[0]};
    }
  }

  /** The place of a page in the order is the number of distinct pages loaded after it. */
  lemma PlaceIsDistance(trace: seq<string>, k: nat)
    requires k < |Recency(trace)|
    ensures |LoadedAfter(trace, Recency(trace)[k])| == k
  {
    hide LastLoad, Recency;
    var pages := Recency(trace);
    RecencyOrdered(trace);
    OrderedDistinct(pages, trace);
    DistinctCardinality(pages[..k]);
    var last := LastLoad(trace, pages[k]);
    forall q ensures q in LoadedAfter(trace, pages[k]) <==> q in pages[..k] {
      LaterIffInSuffix(trace, last, q);
      if LastLoad(trace, q) > last {
        assert q in trace;
        var j :| 0 <= j < |pages| && pages[j] == q;
        assert j < k;
      }
    }
    assert LoadedAfter(trace, pages[k]) == PagesOf(pages[..k]);
  }

  /** Under LRU, with no pins and increasing times, a page is in memory exactly when it was loaded and fewer
    than n distinct pages have been loaded since. */
  lemma ResidentIffRecent(n: int, trace: seq<string>, clock: nat -> Time, p: string)
    requires n >= 1 && Increasing(clock)
    ensures IsResident(LoadTrace(n, trace, clock), p) <==> p in trace && |LoadedAfter(trace, p)| < n
  {
    hide LastLoad, Recency, LoadTrace, LoadedAfter;
    var m, pages := LoadTrace(n, trace, clock), Recency(trace);
    TraceCaches(n, trace, clock);
    RecencyOrdered(trace);
    OrderedDistinct(pages, trace);
    if IsResident(m, p) {
      var i :| 0 <= i < |m.resident| && Ids(m.resident)[i] == p;
      assert m.resident[i].pageId in pages[..|m.resident|];
      var j :| 0 <= j < |m.resident| && pages[j] == p;
      PlaceIsDistance(trace, j);
    }
    if p in trace && |LoadedAfter(trace, p)| < n {
      var j :| 0 <= j < |pages| && pages[j] == p;
      PlaceIsDistance(trace, j);
      assert pages[j] in Ids(m.resident);
    }
  }

  /** A smaller cache never holds a page that a larger one does not. */
  lemma SmallerCacheIncluded(
    n: int, larger: int, trace: seq<string>, clock: nat -> Time, clock2: nat -> Time, p: string)
    requires 1 <= n <= larger && Increasing(clock) && Increasing(clock2)
    requires IsResident(LoadTrace(n, trace, clock), p)
    ensures IsResident(LoadTrace(larger, trace, clock2), p)
  {
    hide LoadTrace, LoadedAfter;
    ResidentIffRecent(n, trace, clock, p);
    ResidentIffRecent(larger, trace, clock2, p);
  }
}
