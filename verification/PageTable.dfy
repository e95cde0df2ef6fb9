/** rfsn_kv/page_table.py: entries sorted by logical position, each covering some tokens. */
module PageTable {
  import opened Results
  import opened Subsequences

  datatype Entry = Entry(position: int, pageId: string, count: int)

  datatype TableError = NotSorted | EmptyRange

  function End(e: Entry): int {
    e.position + e.count
  }

  predicate Covers(e: Entry, x: int) {
    e.position <= x < End(e)
  }

  /** What the table constructor accepts. */
  predicate Sorted(entries: seq<Entry>) {
    forall i :: 1 <= i < |entries| ==> entries[i - 1].position < entries[i].position
  }

  /** What the entry constructor accepts, and what the documentation of the table asks for besides. */
  ghost predicate Disjoint(entries: seq<Entry>) {
    && (forall i :: 0 <= i < |entries| ==> entries[i].position >= 0 && entries[i].count > 0)
    && forall i, j :: 0 <= i < j < |entries| ==> End(entries[i]) <= entries[j].position
  }

  /** lookup by linear search. */
  function Find(entries: seq<Entry>, x: int): Option<Entry> {
    if entries == [] then None
    else if Covers(entries[0], x) then Some(entries[0])
    else Find(entries[1..], x)
  }

  lemma {:induction false} FindAt(entries: seq<Entry>, k: nat, x: int)
    requires Disjoint(entries) && k < |entries| && Covers(entries[k], x)
    ensures Find(entries, x) == Some(entries[k])
    decreases k
  {
    if k > 0 {
      FindAt(entries[1..], k - 1, x);
    }
  }

  lemma {:induction false} FindNone(entries: seq<Entry>, x: int)
    ensures Find(entries, x).None? <==> forall i :: 0 <= i < |entries| ==> !Covers(entries[i], x)
  {
    if entries != [] {
      FindNone(entries[1..], x);
      assert forall i :: 0 <= i < |entries[1..]| ==> entries[1..][i] == entries[i + 1];
      assert forall i :: 0 < i < |entries| ==> entries[i] == entries[1..][i - 1];
    }
  }

  /** The binary search finds what the linear search finds, at every position. */
  method Lookup(entries: seq<Entry>, x: int) returns (r: Option<Entry>)
    requires Disjoint(entries)
    ensures r == Find(entries, x)
    ensures r.Some? ==> r.value in entries && r.value.position <= x < r.value.position + r.value.count
    ensures r.None? ==>
              forall i :: 0 <= i < |entries| ==> !(entries[i].position <= x < entries[i].position + entries[i].count)
  {
    var lo, hi := 0, |entries| - 1;
    while lo <= hi
      invariant 0 <= lo <= |entries| && -1 <= hi < |entries|
      invariant forall i :: 0 <= i < lo ==> End(entries[i]) <= x
      invariant forall i :: hi < i < |entries| ==> x < entries[i].position
    {
      var mid := (lo + hi) / 2;
      var entry := entries[mid];
      if Covers(entry, x) {
        FindAt(entries, mid, x);
        return Some(entry);
      } else if x < entry.position {
        hi := mid - 1;
      } else {
        lo := mid + 1;
      }
    }
    FindNone(entries, x);
    r := None;
  }

  predicate Meets(e: Entry, start: int, end: int) {
    End(e) > start && e.position < end
  }

  /** The pages of the entries that meet an interval. */
  function PagesMeeting(entries: seq<Entry>, start: int, end: int): seq<string> {
    if entries == [] then []
    else (if Meets(entries[0], start, end) then [entries[0].pageId] else []) + PagesMeeting(entries[1..], start, end)
  }

  lemma {:induction false} NothingMeets(entries: seq<Entry>, start: int, end: int)
    requires forall i :: 0 <= i < |entries| ==> entries[i].position >= end
    ensures PagesMeeting(entries, start, end) == []
  {
    if entries != [] { NothingMeets(entries[1..], start, end); }
  }

  lemma MeetingStep(entries: seq<Entry>, i: nat, start: int, end: int)
    requires i < |entries|
    ensures PagesMeeting(entries[i..], start, end) ==
            (if Meets(entries[i], start, end) then [entries[i].pageId] else [])
              + PagesMeeting(entries[i + 1..], start, end)
  {
    assert entries[i..][1..] == entries[i + 1..];
  }

  /** Behind an entry that starts too late there are only such entries. */
  lemma NothingMeetsBehind(entries: seq<Entry>, i: nat, start: int, end: int)
    requires Sorted(entries) && i <= |entries| && (i < |entries| ==> entries[i].position >= end)
    ensures PagesMeeting(entries[i..], start, end) == []
  {
    forall j | i <= j < |entries| ensures entries[j].position >= end {
      SortedBehind(entries, i, j);
    }
    NothingMeets(entries[i..], start, end);
  }

  lemma {:induction false} SortedBehind(entries: seq<Entry>, i: nat, j: nat)
    requires Sorted(entries) && i <= j < |entries|
    ensures entries[i].position <= entries[j].position
    decreases j
  {
    if i < j {
      SortedBehind(entries, i, j - 1);
    }
  }

  function PageIds(entries: seq<Entry>): (ids: seq<string>)
    ensures |ids| == |entries| && forall i :: 0 <= i < |entries| ==> ids[i] == entries[i].pageId
  {
    seq(|entries|, i requires 0 <= i < |entries| => entries[i].pageId)
  }

  /** The pages of exactly the entries that have a position in the interval, in order. */
  ghost predicate MeetingAt(entries: seq<Entry>, start: int, end: int, ks: seq<nat>, r: seq<string>) {
    && PickedAt(PageIds(entries), ks, r)
    && forall k :: 0 <= k < |entries| ==>
         (k in ks <==> start < entries[k].position + entries[k].count && entries[k].position < end)
  }

  lemma MeetingCons(e: Entry, rest: seq<Entry>, start: int, end: int, ks: seq<nat>, r: seq<string>, take: bool)
    requires MeetingAt(rest, start, end, ks, r)
    requires take <==> start < e.position + e.count && e.position < end
    ensures take ==> MeetingAt([e] + rest, start, end, [0] + Later(ks), [e.pageId] + r)
    ensures !take ==> MeetingAt([e] + rest, start, end, Later(ks), r)
  {
    hide PickedAt;
    PickFirst(e.pageId, PageIds(rest), ks, r, take);
    assert PageIds([e] + rest) == [e.pageId] + PageIds(rest);
    var ls := if take then [0] + Later(ks) else Later(ks);
    forall k | 0 <= k < |rest| + 1
      ensures k in ls <==> start < ([e] + rest)[k].position + ([e] + rest)[k].count && ([e] + rest)[k].position < end
    {
      if k > 0 { assert ([e] + rest)[k] == rest[k - 1] && ((k - 1) + 1 in ls <==> k - 1 in ks); }
    }
  }

  lemma {:induction false} MeetingExact(entries: seq<Entry>, start: int, end: int) returns (ks: seq<nat>)
    ensures MeetingAt(entries, start, end, ks, PagesMeeting(entries, start, end))
  {
    if entries == [] {
      ks := [];
    } else {
      hide MeetingAt;
      var e, rest := entries[0], entries[1..];
      var later := MeetingExact(rest, start, end);
      MeetingCons(e, rest, start, end, later, PagesMeeting(rest, start, end), Meets(e, start, end));
      assert entries == [e] + rest && [] + PagesMeeting(rest, start, end) == PagesMeeting(rest, start, end);
      ks := if Meets(e, start, end) then [0] + Later(later) else Later(later);
    }
  }

  method RangeQuery(entries: seq<Entry>, start: int, end: int) returns (r: Result<seq<string>, TableError>)
    requires Sorted(entries)
    ensures r == if end <= start then Failure(EmptyRange) else Success(PagesMeeting(entries, start, end))
    ensures r.Success? ==> exists ks :: MeetingAt(entries, start, end, ks, r.value)
  {
    hide PagesMeeting, Sorted, MeetingAt;
    if end <= start {
      return Failure(EmptyRange);
    }
    var matching: seq<string> := [];
    var i := 0;
    assert entries[0..] == entries;
    while i < |entries|
      invariant 0 <= i <= |entries|
      invariant PagesMeeting(entries, start, end) == matching + PagesMeeting(entries[i..], start, end)
    {
      MeetingStep(entries, i, start, end);
      if End(entries[i]) > start {
        if entries[i].position >= end {
          break;
        }
        matching := matching + [entries[i].pageId];
      }
      i := i + 1;
    }
    NothingMeetsBehind(entries, i, start, end);
    assert matching + [] == matching;
    ghost var ks := MeetingExact(entries, start, end);
    r := Success(matching);
  }

  ghost predicate HitsWithin(entries: seq<Entry>, e: Entry, start: int, end: int) {
    exists x :: start <= x < end && Find(entries, x) == Some(e)
  }

  /** An entry meets an interval exactly when lookup hits it somewhere in the interval: range_query lists,
    in order, exactly the pages of these entries. */
  lemma MeetsIffHit(entries: seq<Entry>, k: nat, start: int, end: int)
    requires Disjoint(entries) && k < |entries| && start < end
    ensures Meets(entries[k], start, end) <==> HitsWithin(entries, entries[k], start, end)
  {
    var e := entries[k];
    if Meets(e, start, end) {
      var x := if e.position >= start then e.position else start;
      FindAt(entries, k, x);
      assert start <= x < end && Find(entries, x) == Some(e);
    }
    if HitsWithin(entries, e, start, end) {
      var x :| start <= x < end && Find(entries, x) == Some(e);
      FoundCovers(entries, x);
    }
  }

  lemma {:induction false} FoundCovers(entries: seq<Entry>, x: int)
    ensures var r := Find(entries, x); r.Some? ==> r.value in entries && Covers(r.value, x)
  {
    if entries != [] { FoundCovers(entries[1..], x); }
  }

  // ----- updates -----

  /** The first position whose entry lies behind the new one. */
  function InsertionPoint(entries: seq<Entry>, position: int): (k: nat)
    ensures k <= |entries|
    ensures forall i :: 0 <= i < k ==> entries[i].position <= position
    ensures k < |entries| ==> entries[k].position > position
  {
    if entries == [] || entries[0].position > position then 0
    else 1 + InsertionPoint(entries[1..], position)
  }

  function Inserted(entries: seq<Entry>, e: Entry): seq<Entry> {
    var k := InsertionPoint(entries, e.position);
    entries[..k] + [e] + entries[k..]
  }

  /** The new entry goes between the earlier and the later positions; nothing else moves. */
  ghost predicate InsertedAt(entries: seq<Entry>, e: Entry, k: nat, r: seq<Entry>) {
    && k <= |entries| && r == entries[..k] + [e] + entries[k..]
    && (forall i :: 0 <= i < k ==> entries[i].position <= e.position)
    && forall i :: k <= i < |entries| ==> entries[i].position > e.position
  }

  /** The new table is sorted exactly when the position is new. */
  lemma InsertedSorted(entries: seq<Entry>, e: Entry, k: nat)
    requires Sorted(entries) && k <= |entries| && (forall i :: 0 <= i < k ==> entries[i].position <= e.position)
    requires k < |entries| ==> entries[k].position > e.position
    ensures forall i :: k <= i < |entries| ==> entries[i].position > e.position
    ensures Sorted(entries[..k] + [e] + entries[k..]) <==>
            forall i :: 0 <= i < |entries| ==> entries[i].position != e.position
  {
    hide Sorted;
    forall i | k <= i < |entries| ensures entries[i].position > e.position { SortedBehind(entries, k, i); }
    forall i | 0 <= i < k ensures entries[i].position <= entries[k - 1].position { SortedBehind(entries, i, k - 1); }
    SpliceSorted(entries, e, k);
  }

  lemma SpliceSorted(entries: seq<Entry>, e: Entry, k: nat)
    requires Sorted(entries) && k <= |entries|
    requires k < |entries| ==> e.position < entries[k].position
    ensures Sorted(entries[..k] + [e] + entries[k..]) <==> (k > 0 ==> entries[k - 1].position < e.position)
  {
    var next := entries[..k] + [e] + entries[k..];
    assert forall i :: 0 <= i < |next| ==>
        next[i] == if i < k then entries[i] else if i == k then e else entries[i - 1];
    if Sorted(next) && k > 0 { assert next[k - 1].position < next[k].position; }
  }

  /** with_entry: the constructor of the new table refuses a repeated position. */
  method WithEntry(entries: seq<Entry>, e: Entry) returns (r: Result<seq<Entry>, TableError>)
    requires Sorted(entries)
    ensures r == if Sorted(Inserted(entries, e)) then Success(Inserted(entries, e)) else Failure(NotSorted)
    ensures r.Success? <==> forall i :: 0 <= i < |entries| ==> entries[i].position != e.position
    ensures r.Success? ==>
              exists k :: InsertedAt(entries, e, k, r.value)
  {
    var pos := 0;
    while pos < |entries| && entries[pos].position <= e.position
      invariant 0 <= pos <= |entries|
      invariant forall i :: 0 <= i < pos ==> entries[i].position <= e.position
    {
      pos := pos + 1;
    }
    PointUnique(entries, e.position, pos);
    var next := entries[..pos] + [e] + entries[pos..];
    InsertedSorted(entries, e, pos);
    assert InsertedAt(entries, e, pos, next);
    if Sorted(next) {
      r := Success(next);
    } else {
      r := Failure(NotSorted);
    }
  }

  lemma PointUnique(entries: seq<Entry>, position: int, k: nat)
    requires k <= |entries| && (forall i :: 0 <= i < k ==> entries[i].position <= position)
    requires k < |entries| ==> entries[k].position > position
    ensures InsertionPoint(entries, position) == k
  {
  }

  /** The new entry overlaps no other. */
  ghost predicate Apart(entries: seq<Entry>, e: Entry) {
    && e.position >= 0 && e.count > 0
    && forall i :: 0 <= i < |entries| ==> End(entries[i]) <= e.position || End(e) <= entries[i].position
  }

  lemma DisjointSorted(entries: seq<Entry>)
    requires Disjoint(entries)
    ensures Sorted(entries)
  {
    forall i | 1 <= i < |entries| ensures entries[i - 1].position < entries[i].position {
      assert entries[i - 1].position >= 0 && entries[i - 1].count > 0 && End(entries[i - 1]) <= entries[i].position;
    }
  }

  /** Inserting an entry that overlaps no other is accepted, keeps the table disjoint, and adds exactly its
    own positions to what lookup finds. */
  lemma InsertDisjoint(entries: seq<Entry>, e: Entry, x: int)
    requires Disjoint(entries) && Apart(entries, e)
    ensures Disjoint(Inserted(entries, e)) && Sorted(Inserted(entries, e))
    ensures Find(Inserted(entries, e), x) == if Covers(e, x) then Some(e) else Find(entries, x)
  {
    hide Covers, InsertionPoint, Find, Sorted, End, Apart;
    var k := InsertionPoint(entries, e.position);
    var next := Inserted(entries, e);
    InsertedDisjoint(entries, e);
    DisjointSorted(next);
    if Covers(e, x) {
      FindAt(next, k, x);
    } else {
      FindNone(entries, x);
      FindNone(next, x);
      if i :| 0 <= i < |entries| && Covers(entries[i], x) {
        FindAt(entries, i, x);
        FindAt(next, if i < k then i else i + 1, x);
      } else {
        forall i | 0 <= i < |next| ensures !Covers(next[i], x) {
          if i < k { assert next[i] == entries[i]; } else if i > k { assert next[i] == entries[i - 1]; }
        }
      }
    }
  }

  lemma InsertedDisjoint(entries: seq<Entry>, e: Entry)
    requires Disjoint(entries) && Apart(entries, e)
    ensures Disjoint(Inserted(entries, e))
  {
    var k := InsertionPoint(entries, e.position);
    forall i | 0 <= i < k ensures End(entries[i]) <= e.position {
      assert entries[i].position >= 0 && entries[i].count > 0 && entries[i].position <= e.position;
    }
    forall i | k <= i < |entries| ensures End(e) <= entries[i].position {
      assert i > k ==> entries[k].position >= 0 && entries[k].count > 0 && End(entries[k]) <= entries[i].position;
      assert entries[i].position >= 0 && entries[i].count > 0;
    }
    Splice(entries, k, e);
  }

  lemma Splice(entries: seq<Entry>, k: nat, e: Entry)
    requires Disjoint(entries) && k <= |entries| && e.position >= 0 && e.count > 0
    requires forall i :: 0 <= i < k ==> End(entries[i]) <= e.position
    requires forall i :: k <= i < |entries| ==> End(e) <= entries[i].position
    ensures Disjoint(entries[..k] + [e] + entries[k..])
  {
    hide End;
    var next := entries[..k] + [e] + entries[k..];
    assert forall i :: 0 <= i < |next| ==>
        next[i] == if i < k then entries[i] else if i == k then e else entries[i - 1];
  }

  function Removed(entries: seq<Entry>, pages: set<string>): seq<Entry> {
    if entries == [] then []
    else (if entries[0].pageId in pages then [] else [entries[0]]) + Removed(entries[1..], pages)
  }

  /** Exactly the entries of other pages stay, in order. */
  ghost predicate KeptAt(entries: seq<Entry>, pages: set<string>, ks: seq<nat>, r: seq<Entry>) {
    PickedAt(entries, ks, r) && forall k :: 0 <= k < |entries| ==> (k in ks <==> entries[k].pageId !in pages)
  }

  lemma KeptCons(e: Entry, rest: seq<Entry>, pages: set<string>, ks: seq<nat>, r: seq<Entry>, take: bool)
    requires KeptAt(rest, pages, ks, r) && (take <==> e.pageId !in pages)
    ensures take ==> KeptAt([e] + rest, pages, [0] + Later(ks), [e] + r)
    ensures !take ==> KeptAt([e] + rest, pages, Later(ks), r)
  {
    hide PickedAt;
    PickFirst(e, rest, ks, r, take);
    var ls := if take then [0] + Later(ks) else Later(ks);
    forall k | 0 <= k < |rest| + 1 ensures k in ls <==> ([e] + rest)[k].pageId !in pages {
      if k > 0 { assert ([e] + rest)[k] == rest[k - 1] && ((k - 1) + 1 in ls <==> k - 1 in ks); }
    }
  }

  lemma {:induction false} RemovedExact(entries: seq<Entry>, pages: set<string>) returns (ks: seq<nat>)
    ensures KeptAt(entries, pages, ks, Removed(entries, pages))
  {
    if entries == [] {
      ks := [];
    } else {
      hide KeptAt;
      var e, rest := entries[0], entries[1..];
      var later := RemovedExact(rest, pages);
      KeptCons(e, rest, pages, later, Removed(rest, pages), e.pageId !in pages);
      assert entries == [e] + rest && [] + Removed(rest, pages) == Removed(rest, pages);
      ks := if e.pageId !in pages then [0] + Later(later) else Later(later);
    }
  }

  lemma {:induction false} RemovedMembers(entries: seq<Entry>, pages: set<string>)
    ensures forall e :: e in Removed(entries, pages) <==> e in entries && e.pageId !in pages
  {
    if entries != [] {
      RemovedMembers(entries[1..], pages);
      assert entries == [entries[0]] + entries[1..];
    }
  }

  lemma RestDisjoint(entries: seq<Entry>)
    requires Disjoint(entries) && entries != []
    ensures Disjoint(entries[1..]) && entries[0].position >= 0 && entries[0].count > 0
  {
    hide End;
  }

  lemma FirstEndsBefore(entries: seq<Entry>, e: Entry)
    requires Disjoint(entries) && entries != [] && e in entries[1..]
    ensures End(entries[0]) <= e.position
  {
    hide End;
    var i :| 0 <= i < |entries[1..]| && entries[1..][i] == e;
    assert entries[i + 1] == e;
  }

  lemma {:induction false} RemovedDisjoint(entries: seq<Entry>, pages: set<string>)
    requires Disjoint(entries)
    ensures Disjoint(Removed(entries, pages))
  {
    hide End;
    if entries != [] {
      var rest := entries[1..];
      RestDisjoint(entries);
      hide Disjoint;
      RemovedDisjoint(rest, pages);
      RemovedMembers(rest, pages);
      var kept := Removed(rest, pages);
      forall j | 0 <= j < |kept| ensures End(entries[0]) <= kept[j].position {
        assert kept[j] in kept;
        FirstEndsBefore(entries, kept[j]);
      }
      assert [] + kept == kept;
      PrependDisjoint(entries[0], kept);
    }
  }

  lemma PrependDisjoint(e: Entry, rest: seq<Entry>)
    requires e.position >= 0 && e.count > 0 && Disjoint(rest)
    requires forall j :: 0 <= j < |rest| ==> End(e) <= rest[j].position
    ensures Disjoint([e] + rest)
  {
    hide End;
  }

  lemma FindOnly(entries: seq<Entry>, x: int)
    requires entries != [] && Disjoint(entries) && Covers(entries[0], x)
    ensures Find(entries[1..], x).None?
  {
    FindNone(entries[1..], x);
  }

  lemma FindCons(e: Entry, rest: seq<Entry>, x: int)
    ensures Find([e] + rest, x) == if Covers(e, x) then Some(e) else Find(rest, x)
  {
    assert ([e] + rest)[1..] == rest;
  }

  lemma {:induction false} RemovedNone(entries: seq<Entry>, pages: set<string>, x: int)
    requires Find(entries, x).None?
    ensures Find(Removed(entries, pages), x).None?
  {
    hide Covers;
    if entries != [] {
      FindCons(entries[0], Removed(entries[1..], pages), x);
      RemovedNone(entries[1..], pages, x);
      assert [] + Removed(entries[1..], pages) == Removed(entries[1..], pages);
    }
  }

  lemma {:induction false} RemovedFind(entries: seq<Entry>, pages: set<string>, x: int)
    requires Disjoint(entries)
    ensures var r := Find(entries, x);
      Find(Removed(entries, pages), x) == if r.Some? && r.value.pageId in pages then None else r
  {
    hide Covers;
    if entries != [] {
      FindCons(entries[0], Removed(entries[1..], pages), x);
      RemovedFind(entries[1..], pages, x);
      assert [] + Removed(entries[1..], pages) == Removed(entries[1..], pages);
      if Covers(entries[0], x) {
        FindOnly(entries, x);
        RemovedNone(entries[1..], pages, x);
      }
    }
  }

  /** Removing pages keeps the table disjoint and takes exactly their entries from what lookup finds. */
  lemma RemoveDisjoint(entries: seq<Entry>, pages: set<string>, x: int)
    requires Disjoint(entries)
    ensures Disjoint(Removed(entries, pages))
    ensures var r := Find(entries, x);
      Find(Removed(entries, pages), x) == if r.Some? && r.value.pageId in pages then None else r
  {
    RemovedDisjoint(entries, pages);
    RemovedFind(entries, pages, x);
  }
}
