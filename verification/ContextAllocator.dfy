/** rfsn_agent/context.py: which context segments fit the token budgets, and the handle for what was left out.

  Segments are given; how their texts are built and tokenized is not modelled.
 */
module ContextAllocator {
  import opened Subsequences

  datatype Segment = Segment(
    segmentId: string, kind: string, priority: int, content: string, tokens: nat, sourceIds: seq<string>)

  /** budgets maps the kinds that have a budget set. */
  datatype Config = Config(maxTotalTokens: int, budgets: map<string, int>, handlesPriority: int)

  type Counter = string -> nat

  const HANDLES := "retrieval_handles"

  function Total(segments: seq<Segment>): nat {
    if segments == [] then 0 else Total(segments[..|segments| - 1]) + segments[|segments| - 1].tokens
  }

  function KindTotal(segments: seq<Segment>, kind: string): nat {
    if segments == [] then 0
    else
      var last := segments[|segments| - 1];
      KindTotal(segments[..|segments| - 1], kind) + if last.kind == kind then last.tokens else 0
  }

  // ----- section budgets -----

  predicate FitsSection(kept: seq<Segment>, s: Segment, budgets: map<string, int>) {
    s.kind in budgets ==> KindTotal(kept, s.kind) + s.tokens <= budgets[s.kind]
  }

  /** In order, every segment that its section still has room for. */
  function SectionKept(segments: seq<Segment>, budgets: map<string, int>): seq<Segment> {
    if segments == [] then []
    else
      var kept, last := SectionKept(segments[..|segments| - 1], budgets), segments[|segments| - 1];
      if FitsSection(kept, last, budgets) then kept + [last] else kept
  }

  lemma KindTotalSnoc(kept: seq<Segment>, s: Segment, kind: string)
    ensures KindTotal(kept + [s], kind) == KindTotal(kept, kind) + if s.kind == kind then s.tokens else 0
  {
    assert (kept + [s])[..|kept|] == kept;
  }

  lemma TotalSnoc(kept: seq<Segment>, s: Segment)
    ensures Total(kept + [s]) == Total(kept) + s.tokens
  {
    assert (kept + [s])[..|kept|] == kept;
  }

  /** No section goes over its budget. */
  lemma {:induction false} SectionsWithinBudget(segments: seq<Segment>, budgets: map<string, int>, kind: string)
    requires kind in budgets && 0 <= budgets[kind]
    ensures KindTotal(SectionKept(segments, budgets), kind) <= budgets[kind]
    decreases |segments|
  {
    if segments != [] {
      var init := segments[..|segments| - 1];
      SectionsWithinBudget(init, budgets, kind);
      KindTotalSnoc(SectionKept(init, budgets), segments[|segments| - 1], kind);
    }
  }

  /** The tokens of the given kind at those of the first n positions that are in ks. */
  function Used(segments: seq<Segment>, ks: seq<nat>, kind: string, n: nat): nat
    requires n <= |segments|
  {
    if n == 0 then 0
    else
      Used(segments, ks, kind, n - 1)
      + if n - 1 in ks && segments[n - 1].kind == kind then segments[n - 1].tokens else 0
  }

  /** A segment is kept exactly if its kind has no budget or the kept ones of its kind before it leave room. */
  ghost predicate SectionsFilled(segments: seq<Segment>, budgets: map<string, int>, ks: seq<nat>, r: seq<Segment>) {
    && PickedAt(segments, ks, r)
    && forall k :: 0 <= k < |segments| ==>
         var s := segments[k];
         k in ks <==> (s.kind in budgets ==> Used(segments, ks, s.kind, k) + s.tokens <= budgets[s.kind])
  }

  /** Only positions before n matter. */
  lemma {:induction false} UsedSame(a: seq<Segment>, ks: seq<nat>, b: seq<Segment>, ls: seq<nat>, kind: string, n: nat)
    requires n <= |a| && n <= |b| && a[..n] == b[..n] && forall k :: 0 <= k < n ==> (k in ks <==> k in ls)
    ensures Used(a, ks, kind, n) == Used(b, ls, kind, n)
  {
    if n > 0 {
      assert a[n - 1] == a[..n][n - 1] == b[..n][n - 1];
      assert a[..n - 1] == a[..n][..n - 1] == b[..n][..n - 1] == b[..n - 1];
      UsedSame(a, ks, b, ls, kind, n - 1);
    }
  }

  /** One more segment, kept or not. */
  lemma SectionsFilledStep(
    segments: seq<Segment>, budgets: map<string, int>, ks: seq<nat>, r: seq<Segment>, last: Segment, fits: bool)
    requires SectionsFilled(segments, budgets, ks, r)
    requires fits <==> (last.kind in budgets ==>
                          Used(segments, ks, last.kind, |segments|) + last.tokens <= budgets[last.kind])
    ensures SectionsFilled(segments + [last], budgets, if fits then ks + [|segments|] else ks,
                           if fits then r + [last] else r)
  {
    hide PickedAt, Used;
    var n, all := |segments|, segments + [last];
    var ls := if fits then ks + [n] else ks;
    PickNext(segments, ks, r, last, fits);
    forall k | 0 <= k <= n ensures Used(all, ls, all[k].kind, k) == Used(segments, ks, all[k].kind, k) {
      assert all[..k] == segments[..k];
      UsedSame(all, ls, segments, ks, all[k].kind, k);
    }
  }

  /** What is used at the picked positions is the total of the picked segments. */
  lemma {:induction false} PickedKindTotal(segments: seq<Segment>, ks: seq<nat>, r: seq<Segment>, kind: string)
    requires PickedAt(segments, ks, r)
    ensures KindTotal(r, kind) == Used(segments, ks, kind, |segments|)
    decreases |segments|
  {
    if segments == [] {
      assert r == [];
    } else {
      var n := |segments| - 1;
      var ls := PickedInit(segments, ks, r);
      var before := if n in ks then r[..|r| - 1] else r;
      PickedKindTotal(segments[..n], ls, before, kind);
      UsedSame(segments, ks, segments[..n], ls, kind, n);
      if n in ks { KindTotalSnoc(before, segments[n], kind); }
    }
  }

  /** The section filter keeps exactly these segments. */
  lemma {:induction false} SectionKeptExact(segments: seq<Segment>, budgets: map<string, int>) returns (ks: seq<nat>)
    ensures SectionsFilled(segments, budgets, ks, SectionKept(segments, budgets))
    decreases |segments|
  {
    if segments == [] {
      ks := [];
    } else {
      var n := |segments| - 1;
      var init, last := segments[..n], segments[n];
      assert segments == init + [last];
      var before := SectionKeptExact(init, budgets);
      var kept := SectionKept(init, budgets);
      FilledPicks(init, budgets, before, kept);
      PickedKindTotal(init, before, kept, last.kind);
      hide SectionsFilled, KindTotal, Used, PickedAt;
      ks := if FitsSection(kept, last, budgets) then before + [n] else before;
      SectionsFilledStep(init, budgets, before, kept, last, FitsSection(kept, last, budgets));
    }
  }

  lemma FilledPicks(segments: seq<Segment>, budgets: map<string, int>, ks: seq<nat>, r: seq<Segment>)
    requires SectionsFilled(segments, budgets, ks, r)
    ensures PickedAt(segments, ks, r)
  {
  }

  // ----- the global ranking -----

  /** i ranks before j: higher priority, or the same and earlier. */
  predicate Before(segments: seq<Segment>, i: nat, j: nat)
    requires i < |segments| && j < |segments|
  {
    segments[i].priority > segments[j].priority || (segments[i].priority == segments[j].priority && i < j)
  }

  predicate InRange(order: seq<nat>, n: nat) {
    forall k :: 0 <= k < |order| ==> order[k] < n
  }

  /** Position n - 1 put in its place among the earlier ones: behind all that rank before it. */
  function Insert(segments: seq<Segment>, order: seq<nat>, n: nat): (r: seq<nat>)
    requires n < |segments| && InRange(order, n)
    ensures InRange(r, n + 1) && |r| == |order| + 1
  {
    if order == [] then [n]
    else if Before(segments, n, order[|order| - 1]) then
      Insert(segments, order[..|order| - 1], n) + [order[|order| - 1]]
    else order + [n]
  }

  /** The stable sort of the source. */
  function Ranking(segments: seq<Segment>, n: nat): (r: seq<nat>)
    requires n <= |segments|
    ensures InRange(r, n) && |r| == n
  {
    if n == 0 then [] else Insert(segments, Ranking(segments, n - 1), n - 1)
  }

  ghost predicate Ranked(segments: seq<Segment>, order: seq<nat>) {
    && InRange(order, |segments|)
    && forall p, q :: 0 <= p < q < |order| ==> Before(segments, order[p], order[q])
  }

  lemma RankedSnoc(segments: seq<Segment>, order: seq<nat>, last: nat)
    requires Ranked(segments, order) && last < |segments|
    requires forall p :: 0 <= p < |order| ==> Before(segments, order[p], last)
    ensures Ranked(segments, order + [last])
  {
    hide Before;
  }

  lemma RankedInit(segments: seq<Segment>, order: seq<nat>)
    requires Ranked(segments, order) && order != []
    ensures Ranked(segments, order[..|order| - 1])
    ensures forall p :: 0 <= p < |order| - 1 ==> Before(segments, order[p], order[|order| - 1])
  {
    hide Before;
  }

  lemma {:induction false} InsertMembers(segments: seq<Segment>, order: seq<nat>, n: nat)
    requires n < |segments| && InRange(order, n)
    ensures forall i :: i in Insert(segments, order, n) <==> i in order || i == n
    decreases |order|
  {
    hide Before;
    if order != [] && Before(segments, n, order[|order| - 1]) {
      InsertMembers(segments, order[..|order| - 1], n);
      assert order == order[..|order| - 1] + [order[|order| - 1]];
    }
  }

  lemma {:induction false} InsertRanked(segments: seq<Segment>, order: seq<nat>, n: nat)
    requires n < |segments| && InRange(order, n) && Ranked(segments, order)
    ensures Ranked(segments, Insert(segments, order, n))
    decreases |order|
  {
    if order == [] {
    } else {
      var init, last := order[..|order| - 1], order[|order| - 1];
      RankedInit(segments, order);
      if Before(segments, n, last) {
        InsertRanked(segments, init, n);
        InsertMembers(segments, init, n);
        var r := Insert(segments, init, n);
        hide Before, Ranked, Insert, InRange;
        InsertedBefore(segments, init, r, n, last);
        RankedSnoc(segments, r, last);
      } else {
        RankedSnoc(segments, order, n);
      }
    }
  }

  lemma InsertedBefore(segments: seq<Segment>, init: seq<nat>, r: seq<nat>, n: nat, last: nat)
    requires InRange(init, |segments|) && InRange(r, |segments|) && n < |segments| && last < |segments|
    requires forall i :: i in r <==> i in init || i == n
    requires forall p :: 0 <= p < |init| ==> Before(segments, init[p], last)
    requires Before(segments, n, last)
    ensures forall p :: 0 <= p < |r| ==> Before(segments, r[p], last)
  {
    hide Before;
    forall p | 0 <= p < |r| ensures Before(segments, r[p], last) {
      assert r[p] in r;
      if r[p] != n {
        var k :| 0 <= k < |init| && init[k] == r[p];
      }
    }
  }

  /** The ranking lists every position once, in rank order. */
  lemma {:induction false} RankingRanked(segments: seq<Segment>, n: nat)
    requires n <= |segments|
    ensures Ranked(segments, Ranking(segments, n))
    ensures forall i: nat :: i in Ranking(segments, n) <==> i < n
  {
    if n > 0 {
      RankingRanked(segments, n - 1);
      InsertRanked(segments, Ranking(segments, n - 1), n - 1);
      InsertMembers(segments, Ranking(segments, n - 1), n - 1);
    }
  }

  function TokensAt(segments: seq<Segment>, order: seq<nat>): nat
    requires InRange(order, |segments|)
  {
    if order == [] then 0
    else TokensAt(segments, order[..|order| - 1]) + segments[order[|order| - 1]].tokens
  }

  /** Dropping from the end until the rest fits. */
  function FitLength(segments: seq<Segment>, order: seq<nat>, max: int): (k: nat)
    requires InRange(order, |segments|)
    ensures k <= |order|
    decreases |order|
  {
    if order == [] || TokensAt(segments, order) <= max then |order|
    else FitLength(segments, order[..|order| - 1], max)
  }

  /** The segments at the given positions, in their original order. */
  function AtPositions(segments: seq<Segment>, keep: set<nat>): seq<Segment> {
    if segments == [] then []
    else
      var init := AtPositions(segments[..|segments| - 1], keep);
      if |segments| - 1 in keep then init + [segments[|segments| - 1]] else init
  }

  function Positions(order: seq<nat>): set<nat> {
    set i | i in order
  }

  function KeptPositions(segments: seq<Segment>, max: int): set<nat> {
    var order := Ranking(segments, |segments|);
    Positions(order[..FitLength(segments, order, max)])
  }

  /** _allocate_tokens, for segments whose tokens are counted. */
  function Allocated(segments: seq<Segment>, config: Config): seq<Segment> {
    var kept := SectionKept(segments, config.budgets);
    AtPositions(kept, KeptPositions(kept, config.maxTotalTokens))
  }

  // ----- what allocation means, without the ranking -----

  /** The tokens of those of the first n segments that have a higher priority than segment i, or the same
    and no later position. */
  function Weight(segments: seq<Segment>, i: nat, n: nat): nat
    requires i < |segments| && n <= |segments|
  {
    if n == 0 then 0
    else
      var s := segments[n - 1];
      Weight(segments, i, n - 1)
      + if s.priority > segments[i].priority || (s.priority == segments[i].priority && n - 1 <= i) then s.tokens else 0
  }

  /** The tokens of those of the first n positions that are in a set. */
  function SetTokens(segments: seq<Segment>, keep: set<nat>, n: nat): nat
    requires n <= |segments|
  {
    if n == 0 then 0 else SetTokens(segments, keep, n - 1) + if n - 1 in keep then segments[n - 1].tokens else 0
  }

  lemma {:induction false} SetTokensAdd(segments: seq<Segment>, keep: set<nat>, i: nat, n: nat)
    requires n <= |segments| && i < |segments| && i !in keep
    ensures SetTokens(segments, keep + {i}, n) == SetTokens(segments, keep, n) + if i < n then segments[i].tokens else 0
  {
    if n > 0 { SetTokensAdd(segments, keep, i, n - 1); }
  }

  lemma {:induction false} SetTokensNone(segments: seq<Segment>, n: nat)
    requires n <= |segments|
    ensures SetTokens(segments, {}, n) == 0
  {
    if n > 0 { SetTokensNone(segments, n - 1); }
  }

  /** Summing along a ranked order is summing over its set. */
  lemma {:induction false} OrderTokens(segments: seq<Segment>, order: seq<nat>)
    requires Ranked(segments, order)
    ensures TokensAt(segments, order) == SetTokens(segments, Positions(order), |segments|)
    decreases |order|
  {
    if order == [] {
      assert Positions(order) == {};
      SetTokensNone(segments, |segments|);
    } else {
      var init, last := order[..|order| - 1], order[|order| - 1];
      assert order == init + [last];
      OrderTokens(segments, init);
      assert Positions(order) == Positions(init) + {last};
      SetTokensAdd(segments, Positions(init), last, |segments|);
    }
  }

  lemma {:induction false} WeightIsSet(segments: seq<Segment>, i: nat, keep: set<nat>, n: nat)
    requires i < |segments| && n <= |segments|
    requires forall j: nat :: j < n ==> (j in keep <==> !Before(segments, i, j))
    ensures Weight(segments, i, n) == SetTokens(segments, keep, n)
  {
    if n > 0 { WeightIsSet(segments, i, keep, n - 1); }
  }

  /** A prefix of a ranking holds what does not rank behind its last position. */
  lemma PrefixPositions(segments: seq<Segment>, order: seq<nat>, p: nat, j: nat)
    requires Ranked(segments, order) && p < |order| && j in order
    ensures j in Positions(order[..p + 1]) <==> !Before(segments, order[p], j)
  {
    var q :| 0 <= q < |order| && order[q] == j;
    if q <= p {
      assert order[..p + 1][q] == j;
      assert q < p ==> Before(segments, order[q], order[p]);
    } else {
      assert forall i :: 0 <= i < q ==> Before(segments, order[i], order[q]) && order[i] != order[q];
    }
  }

  /** A prefix of the ranking weighs what its last segment weighs. */
  lemma PrefixWeight(segments: seq<Segment>, p: nat)
    requires p < |segments|
    ensures var order := Ranking(segments, |segments|);
      TokensAt(segments, order[..p + 1]) == Weight(segments, order[p], |segments|)
  {
    var order := Ranking(segments, |segments|);
    RankingRanked(segments, |segments|);
    var prefix := order[..p + 1];
    RankedPrefix(segments, order, p + 1);
    hide Ranking, Ranked, Before, Weight, TokensAt, SetTokens, Positions;
    OrderTokens(segments, prefix);
    forall j: nat | j < |segments| ensures j in Positions(prefix) <==> !Before(segments, order[p], j) {
      assert j in order;
      PrefixPositions(segments, order, p, j);
    }
    WeightIsSet(segments, order[p], Positions(prefix), |segments|);
  }

  lemma RankedPrefix(segments: seq<Segment>, order: seq<nat>, n: nat)
    requires Ranked(segments, order) && n <= |order|
    ensures Ranked(segments, order[..n])
  {
    hide Before;
  }

  lemma {:induction false} TokensMonotone(segments: seq<Segment>, order: seq<nat>, k: nat)
    requires InRange(order, |segments|) && k <= |order|
    ensures TokensAt(segments, order[..k]) <= TokensAt(segments, order)
    decreases |order|
  {
    if k == |order| {
      assert order[..k] == order;
    } else {
      assert order[..|order| - 1][..k] == order[..k];
      TokensMonotone(segments, order[..|order| - 1], k);
    }
  }

  /** What is kept is the longest prefix of the ranking that fits. */
  lemma {:induction false} FitLengthLongest(segments: seq<Segment>, order: seq<nat>, max: int, k: nat)
    requires InRange(order, |segments|) && k <= |order| && (k > 0 || 0 <= max)
    ensures k <= FitLength(segments, order, max) <==> TokensAt(segments, order[..k]) <= max
    decreases |order|
  {
    assert order[..|order|] == order;
    if order != [] && TokensAt(segments, order) > max {
      var init := order[..|order| - 1];
      if k < |order| {
        FitLengthLongest(segments, init, max, k);
        assert init[..k] == order[..k];
      }
    } else {
      TokensMonotone(segments, order, k);
    }
  }

  /** A segment survives the global budget exactly when it, and everything that ranks before it, fits. */
  lemma KeptIff(segments: seq<Segment>, max: int, i: nat)
    requires i < |segments|
    ensures i in KeptPositions(segments, max) <==> Weight(segments, i, |segments|) <= max
  {
    hide Ranking, Weight, FitLength, TokensAt, Before;
    var order := Ranking(segments, |segments|);
    RankingRanked(segments, |segments|);
    assert i in order;
    var p :| 0 <= p < |order| && order[p] == i;
    PrefixWeight(segments, p);
    FitLengthLongest(segments, order, max, p + 1);
    var k := FitLength(segments, order, max);
    RankedDistinct(segments, order);
    if p < k { assert order[..k][p] == i; }
  }

  lemma {:induction false} SamePositions(segments: seq<Segment>, a: set<nat>, b: set<nat>)
    requires forall i: nat :: i < |segments| ==> (i in a <==> i in b)
    ensures AtPositions(segments, a) == AtPositions(segments, b)
  {
    if segments != [] {
      SamePositions(segments[..|segments| - 1], a, b);
    }
  }

  /** Allocation keeps, in their original order, exactly the segments within their section budgets that fit
    the global budget together with everything that ranks before them. */
  lemma AllocatedIsFittingPrefix(segments: seq<Segment>, config: Config, fitting: set<nat>)
    requires var kept := SectionKept(segments, config.budgets);
      forall i: nat :: i < |kept| ==> (i in fitting <==> Weight(kept, i, |kept|) <= config.maxTotalTokens)
    ensures Allocated(segments, config) == AtPositions(SectionKept(segments, config.budgets), fitting)
  {
    hide SectionKept, KeptPositions, Weight;
    var kept := SectionKept(segments, config.budgets);
    forall i: nat | i < |kept| ensures i in fitting <==> i in KeptPositions(kept, config.maxTotalTokens) {
      KeptIff(kept, config.maxTotalTokens, i);
    }
    SamePositions(kept, fitting, KeptPositions(kept, config.maxTotalTokens));
  }

  lemma {:induction false} AtPositionsPicked(segments: seq<Segment>, keep: set<nat>) returns (ks: seq<nat>)
    ensures PickedAt(segments, ks, AtPositions(segments, keep))
    ensures forall k: nat :: k < |segments| ==> (k in ks <==> k in keep)
  {
    if segments == [] {
      ks := [];
    } else {
      var n := |segments| - 1;
      var init := segments[..n];
      assert segments == init + [segments[n]];
      ks := AtPositionsPicked(init, keep);
      PickNext(init, ks, AtPositions(init, keep), segments[n], n in keep);
      hide PickedAt;
      if n in keep { ks := ks + [n]; }
    }
  }

  /** What stays fits together with everything of higher priority, or of the same and earlier. */
  ghost predicate TotalFilled(segments: seq<Segment>, max: int, ks: seq<nat>, r: seq<Segment>) {
    && PickedAt(segments, ks, r)
    && forall k :: 0 <= k < |segments| ==> (k in ks <==> Weight(segments, k, |segments|) <= max)
  }

  lemma GlobalExact(segments: seq<Segment>, max: int) returns (ks: seq<nat>)
    ensures TotalFilled(segments, max, ks, AtPositions(segments, KeptPositions(segments, max)))
  {
    hide AtPositions, KeptPositions, Weight;
    ks := AtPositionsPicked(segments, KeptPositions(segments, max));
    forall k: nat | k < |segments| ensures k in ks <==> Weight(segments, k, |segments|) <= max {
      KeptIff(segments, max, k);
    }
  }

  /** Allocation is one filter after the other. */
  ghost predicate AllocationOf(segments: seq<Segment>, config: Config, r: seq<Segment>) {
    exists within, ks, ls ::
      SectionsFilled(segments, config.budgets, ks, within) && TotalFilled(within, config.maxTotalTokens, ls, r)
  }

  lemma AllocatedExact(segments: seq<Segment>, config: Config)
    ensures AllocationOf(segments, config, Allocated(segments, config))
  {
    hide SectionKept, AtPositions, KeptPositions, SectionsFilled, TotalFilled;
    var kept := SectionKept(segments, config.budgets);
    var ks := SectionKeptExact(segments, config.budgets);
    var ls := GlobalExact(kept, config.maxTotalTokens);
    assert SectionsFilled(segments, config.budgets, ks, kept)
        && TotalFilled(kept, config.maxTotalTokens, ls, Allocated(segments, config));
  }

  lemma RankedDistinct(segments: seq<Segment>, order: seq<nat>)
    requires Ranked(segments, order)
    ensures forall p, q :: 0 <= p < |order| && 0 <= q < |order| && p != q ==> order[p] != order[q]
  {
  }

  lemma {:induction false} AtPositionsTotal(segments: seq<Segment>, all: seq<Segment>, keep: set<nat>)
    requires segments <= all
    ensures Total(AtPositions(segments, keep)) == SetTokens(all, keep, |segments|)
    decreases |segments|
  {
    if segments != [] {
      var init := segments[..|segments| - 1];
      AtPositionsTotal(init, all, keep);
      assert segments[|segments| - 1] == all[|segments| - 1];
      if |segments| - 1 in keep { TotalSnoc(AtPositions(init, keep), segments[|segments| - 1]); }
    }
  }

  /** What is allocated fits the global budget. */
  lemma AllocatedFits(segments: seq<Segment>, config: Config)
    requires 0 <= config.maxTotalTokens
    ensures Total(Allocated(segments, config)) <= config.maxTotalTokens
  {
    var kept := SectionKept(segments, config.budgets);
    var order := Ranking(kept, |kept|);
    var k := FitLength(kept, order, config.maxTotalTokens);
    RankingRanked(kept, |kept|);
    FitLengthLongest(kept, order, config.maxTotalTokens, k);
    OrderTokens(kept, order[..k]);
    AtPositionsTotal(kept, kept, Positions(order[..k]));
  }

  // ----- selection -----

  predicate Lists(segments: seq<Segment>, id: string) {
    exists i :: 0 <= i < |segments| && id in segments[i].sourceIds
  }

  /** The ids that no segment lists, in order. */
  function Omitted(ids: seq<string>, segments: seq<Segment>): seq<string> {
    if ids == [] then []
    else (if Lists(segments, ids[0]) then [] else [ids[0]]) + Omitted(ids[1..], segments)
  }

  lemma {:induction false} OmittedMembers(ids: seq<string>, segments: seq<Segment>)
    ensures forall id :: id in Omitted(ids, segments) <==> id in ids && !Lists(segments, id)
  {
    hide Lists;
    if ids != [] {
      OmittedMembers(ids[1..], segments);
      assert ids == [ids[0]] + ids[1..];
    }
  }

  function Handle(omitted: seq<string>, config: Config, counter: Counter, text: seq<string> -> string): Segment {
    Segment("retrieval-handles", HANDLES, config.handlesPriority, text(omitted), counter(text(omitted)), omitted)
  }

  predicate HandleFits(segments: seq<Segment>, handle: Segment, config: Config) {
    && (HANDLES in config.budgets ==> handle.tokens <= config.budgets[HANDLES])
    && Total(segments) + handle.tokens <= config.maxTotalTokens
  }

  /** _add_retrieval_handles: `ids` are the curated items and then the tool results of the snapshot. */
  function WithHandles(
    segments: seq<Segment>, ids: seq<string>, config: Config, counter: Counter,
    text: seq<string> -> string): seq<Segment>
  {
    var omitted := Omitted(ids, segments);
    var handle := Handle(omitted, config, counter, text);
    if omitted == [] || !HandleFits(segments, handle, config) then segments else segments + [handle]
  }

  /** The ids that no segment lists, in order. */
  ghost predicate Unlisted(segments: seq<Segment>, ids: seq<string>, ks: seq<nat>, r: seq<string>) {
    && PickedAt(ids, ks, r)
    && forall k :: 0 <= k < |ids| ==>
         (k in ks <==> forall i :: 0 <= i < |segments| ==> ids[k] !in segments[i].sourceIds)
  }

  lemma {:induction false} OmittedExact(ids: seq<string>, segments: seq<Segment>) returns (ks: seq<nat>)
    ensures Unlisted(segments, ids, ks, Omitted(ids, segments))
    decreases |ids|
  {
    if ids == [] {
      ks := [];
    } else {
      hide Omitted, Unlisted, Lists;
      var init, id := ids[..|ids| - 1], ids[|ids| - 1];
      assert ids == init + [id];
      ks := OmittedExact(init, segments);
      OmittedSnoc(init, id, segments);
      UnlistedStep(segments, init, ks, Omitted(init, segments), id);
      assert Omitted(init, segments) + [] == Omitted(init, segments);
      if !Lists(segments, id) { ks := ks + [|init|]; }
    }
  }

  lemma UnlistedStep(segments: seq<Segment>, ids: seq<string>, ks: seq<nat>, r: seq<string>, id: string)
    requires Unlisted(segments, ids, ks, r)
    ensures var none := !Lists(segments, id);
      Unlisted(segments, ids + [id], if none then ks + [|ids|] else ks, if none then r + [id] else r)
  {
    hide PickedAt;
    PickNext(ids, ks, r, id, !Lists(segments, id));
  }

  lemma {:induction false} OmittedSnoc(ids: seq<string>, id: string, segments: seq<Segment>)
    ensures Omitted(ids + [id], segments) == Omitted(ids, segments) + if Lists(segments, id) then [] else [id]
  {
    hide Lists;
    if ids == [] {
      assert Omitted([], segments) == [] && ([id])[1..] == [];
    } else {
      OmittedSnoc(ids[1..], id, segments);
      assert (ids + [id])[1..] == ids[1..] + [id];
    }
  }

  /** One segment that lists what no other does is added, if there is such and if it fits its own budget and,
    with the others, the total. */
  ghost predicate HandlesAdded(
    segments: seq<Segment>, ids: seq<string>, config: Config, counter: Counter, text: seq<string> -> string,
    ks: seq<nat>, omitted: seq<string>, r: seq<Segment>)
  {
    && Unlisted(segments, ids, ks, omitted)
    && var tokens := counter(text(omitted));
       if omitted != [] && ("retrieval_handles" in config.budgets ==> tokens <= config.budgets["retrieval_handles"])
          && Total(segments) + tokens <= config.maxTotalTokens
       then r == segments + [Segment("retrieval-handles", "retrieval_handles", config.handlesPriority, text(omitted),
                                     tokens, omitted)]
       else r == segments
  }

  lemma HandlesExact(
    segments: seq<Segment>, ids: seq<string>, config: Config, counter: Counter, text: seq<string> -> string)
    returns (ks: seq<nat>, omitted: seq<string>)
    ensures HandlesAdded(segments, ids, config, counter, text, ks, omitted,
                         WithHandles(segments, ids, config, counter, text))
  {
    hide Omitted, Unlisted;
    ks := OmittedExact(ids, segments);
    omitted := Omitted(ids, segments);
  }

  /** The first segment of each content. */
  function Deduped(segments: seq<Segment>): (r: seq<Segment>)
    ensures forall s :: s in r ==> s in segments
  {
    if segments == [] then []
    else
      var init, last := Deduped(segments[..|segments| - 1]), segments[|segments| - 1];
      if HasContent(segments[..|segments| - 1], last.content) then init else init + [last]
  }

  predicate HasContent(segments: seq<Segment>, content: string) {
    exists i :: 0 <= i < |segments| && segments[i].content == content
  }

  /** The segments that are the first ones with their content, in order. */
  ghost predicate FirstOfEach(segments: seq<Segment>, ks: seq<nat>, r: seq<Segment>) {
    && PickedAt(segments, ks, r)
    && forall k :: 0 <= k < |segments| ==>
         (k in ks <==> forall i :: 0 <= i < k ==> segments[i].content != segments[k].content)
  }

  lemma FirstStep(segments: seq<Segment>, ks: seq<nat>, r: seq<Segment>, last: Segment)
    requires FirstOfEach(segments, ks, r)
    ensures var new_ := !HasContent(segments, last.content);
      FirstOfEach(segments + [last], if new_ then ks + [|segments|] else ks, if new_ then r + [last] else r)
  {
    hide PickedAt;
    var all := segments + [last];
    PickNext(segments, ks, r, last, !HasContent(segments, last.content));
    assert forall i :: 0 <= i < |segments| ==> all[i] == segments[i];
  }

  lemma {:induction false} DedupedFirsts(segments: seq<Segment>) returns (ks: seq<nat>)
    ensures FirstOfEach(segments, ks, Deduped(segments))
  {
    if segments == [] {
      ks := [];
    } else {
      var n := |segments| - 1;
      var init, last := segments[..n], segments[n];
      assert segments == init + [last];
      ks := DedupedFirsts(init);
      FirstStep(init, ks, Deduped(init), last);
      hide FirstOfEach, HasContent;
      if !HasContent(init, last.content) { ks := ks + [n]; }
    }
  }

  /** So contents differ, and none is lost. */
  lemma FirstsCoverContents(segments: seq<Segment>, ks: seq<nat>, r: seq<Segment>)
    requires FirstOfEach(segments, ks, r)
    ensures forall i, j :: 0 <= i < j < |r| ==> r[i].content != r[j].content
    ensures forall c :: HasContent(r, c) <==> HasContent(segments, c)
  {
    forall i, j | 0 <= i < j < |r| ensures r[i].content != r[j].content { assert ks[j] in ks && ks[i] < ks[j]; }
    forall c | HasContent(segments, c) ensures HasContent(r, c) {
      var k := FirstWith(segments, c);
      var j :| 0 <= j < |ks| && ks[j] == k;
      assert r[j].content == c;
    }
    forall c | HasContent(r, c) ensures HasContent(segments, c) {
      var j :| 0 <= j < |r| && r[j].content == c;
      assert segments[ks[j]].content == c;
    }
  }

  lemma {:induction false} FirstWith(segments: seq<Segment>, c: string) returns (k: nat)
    requires HasContent(segments, c)
    ensures k < |segments| && segments[k].content == c && forall i :: 0 <= i < k ==> segments[i].content != c
  {
    k := 0;
    while segments[k].content != c
      invariant k < |segments| && forall i :: 0 <= i < k ==> segments[i].content != c
      invariant HasContent(segments, c)
      decreases |segments| - k
    {
      k := k + 1;
    }
  }

  function Counted(segments: seq<Segment>, counter: Counter): (r: seq<Segment>)
    ensures |r| == |segments|
    ensures forall i :: 0 <= i < |r| ==> r[i] == segments[i].(tokens := counter(segments[i].content))
  {
    seq(|segments|, i requires 0 <= i < |segments| => segments[i].(tokens := counter(segments[i].content)))
  }

  /** DefaultContextSelector.select */
  function Selected(
    segments: seq<Segment>, ids: seq<string>, config: Config, counter: Counter,
    text: seq<string> -> string): seq<Segment>
  {
    WithHandles(Allocated(Counted(Deduped(segments), counter), config), ids, config, counter, text)
  }

  /** Whatever is selected fits the global budget. When the handle segment is emitted, every curated item and
    tool result is listed, by the handle or by another segment and never by both; it is missing only when
    nothing is omitted or it does not fit. */
  lemma SelectedFitsAndLists(
    segments: seq<Segment>, ids: seq<string>, config: Config, counter: Counter, text: seq<string> -> string)
    requires 0 <= config.maxTotalTokens
    ensures var kept := Allocated(Counted(Deduped(segments), counter), config);
      var r := Selected(segments, ids, config, counter, text);
      var handle := Handle(Omitted(ids, kept), config, counter, text);
      && Total(r) <= config.maxTotalTokens
      && (r == kept || r == kept + [handle])
      && (|r| > |kept| <==> (exists id :: id in ids && !Lists(kept, id)) && HandleFits(kept, handle, config))
      && (|r| > |kept| ==> forall id :: id in ids ==> Lists(r, id) && (Lists(kept, id) <==> id !in handle.sourceIds))
  {
    hide Allocated, Deduped, Lists;
    var kept := Allocated(Counted(Deduped(segments), counter), config);
    AllocatedFits(Counted(Deduped(segments), counter), config);
    var omitted := Omitted(ids, kept);
    var handle := Handle(omitted, config, counter, text);
    TotalSnoc(kept, handle);
    OmittedMembers(ids, kept);
    if omitted != [] {
      assert omitted[0] in omitted;
      forall id | id in ids ensures Lists(kept + [handle], id) {
        ListsSnoc(kept, handle, id);
      }
    }
  }

  lemma ListsSnoc(segments: seq<Segment>, s: Segment, id: string)
    ensures Lists(segments + [s], id) <==> Lists(segments, id) || id in s.sourceIds
  {
    if Lists(segments, id) {
      var i :| 0 <= i < |segments| && id in segments[i].sourceIds;
      assert id in (segments + [s])[i].sourceIds;
    }
    if id in s.sourceIds {
      assert id in (segments + [s])[|segments|].sourceIds;
    }
    if Lists(segments + [s], id) {
      var i :| 0 <= i < |segments + [s]| && id in (segments + [s])[i].sourceIds;
      assert i < |segments| ==> id in segments[i].sourceIds;
    }
  }

  // ----- the loops -----

  lemma NothingKept(budgets: map<string, int>)
    ensures SectionKept([], budgets) == [] && forall kind :: KindTotal([], kind) == 0
  {
  }

  lemma SectionStep(segments: seq<Segment>, i: nat, budgets: map<string, int>)
    requires i < |segments|
    ensures var kept := SectionKept(segments[..i], budgets);
      SectionKept(segments[..i + 1], budgets) ==
      if FitsSection(kept, segments[i], budgets) then kept + [segments[i]] else kept
  {
    hide KindTotal;
    assert segments[..i + 1][..i] == segments[..i];
  }

  method ApplySectionBudgets(segments: seq<Segment>, budgets: map<string, int>) returns (kept: seq<Segment>)
    ensures kept == SectionKept(segments, budgets)
  {
    hide SectionKept, KindTotal;
    NothingKept(budgets);
    var usage: map<string, nat> := map[];
    kept := [];
    var i := 0;
    while i < |segments|
      invariant 0 <= i <= |segments| && kept == SectionKept(segments[..i], budgets)
      invariant forall kind :: KindTotal(kept, kind) == if kind in usage then usage[kind] else 0
    {
      var segment := segments[i];
      SectionStep(segments, i, budgets);
      if segment.kind !in usage {
        usage := usage[segment.kind := 0];
      }
      if !(segment.kind in budgets && usage[segment.kind] + segment.tokens > budgets[segment.kind]) {
        forall kind
          ensures KindTotal(kept + [segment], kind) ==
                  KindTotal(kept, kind) + if segment.kind == kind then segment.tokens else 0
        {
          KindTotalSnoc(kept, segment, kind);
        }
        usage := usage[segment.kind := usage[segment.kind] + segment.tokens];
        kept := kept + [segment];
      }
      i := i + 1;
    }
    assert segments[..i] == segments;
  }

  /** The global budget: walk the ranking from its end and evict until the rest fits. */
  method ApplyGlobalBudget(segments: seq<Segment>, max: int) returns (kept: seq<Segment>)
    ensures kept == AtPositions(segments, KeptPositions(segments, max))
  {
    hide Ranking, AtPositions, Positions;
    var order := Ranking(segments, |segments|);
    var total := SumTokens(segments, order);
    var k := |order|;
    var evicted: set<nat> := {};
    assert order[..k] == order && order[k..] == [];
    NoPositions();
    while k > 0 && total > max
      invariant 0 <= k <= |order|
      invariant total == TokensAt(segments, order[..k])
      invariant FitLength(segments, order[..k], max) == FitLength(segments, order, max)
      invariant evicted == Positions(order[k..])
    {
      assert order[..k][..k - 1] == order[..k - 1];
      EvictedSnoc(order, k);
      k := k - 1;
      evicted := evicted + {order[k]};
      total := total - segments[order[k]].tokens;
    }
    kept := NotEvicted(segments, evicted);
    EvictedIsComplement(segments, order, k, evicted);
  }

  lemma NoPositions()
    ensures Positions([]) == {}
  {
  }

  lemma EvictedSnoc(order: seq<nat>, k: nat)
    requires 0 < k <= |order|
    ensures Positions(order[k - 1..]) == Positions(order[k..]) + {order[k - 1]}
  {
    assert order[k - 1..] == [order[k - 1]] + order[k..];
  }

  /** [s for i, s in enumerate(kept) if i not in evicted] */
  function NotEvicted(segments: seq<Segment>, evicted: set<nat>): seq<Segment> {
    if segments == [] then []
    else
      var init := NotEvicted(segments[..|segments| - 1], evicted);
      if |segments| - 1 in evicted then init else init + [segments[|segments| - 1]]
  }

  lemma {:induction false} NotEvictedIsKept(segments: seq<Segment>, evicted: set<nat>, keep: set<nat>)
    requires forall i: nat :: i < |segments| ==> (i in keep <==> i !in evicted)
    ensures NotEvicted(segments, evicted) == AtPositions(segments, keep)
  {
    if segments != [] {
      NotEvictedIsKept(segments[..|segments| - 1], evicted, keep);
    }
  }

  lemma EvictedIsComplement(segments: seq<Segment>, order: seq<nat>, k: nat, evicted: set<nat>)
    requires order == Ranking(segments, |segments|) && k <= |order| && evicted == Positions(order[k..])
    ensures NotEvicted(segments, evicted) == AtPositions(segments, Positions(order[..k]))
  {
    hide Ranking, AtPositions, NotEvicted;
    RankingRanked(segments, |segments|);
    RankedDistinct(segments, order);
    forall i: nat | i < |segments| ensures i in Positions(order[..k]) <==> i !in evicted {
      assert i in order;
      var p :| 0 <= p < |order| && order[p] == i;
      if p < k { assert order[..k][p] == i; } else { assert order[k..][p - k] == i; }
    }
    NotEvictedIsKept(segments, evicted, Positions(order[..k]));
  }

  method SumTokens(segments: seq<Segment>, order: seq<nat>) returns (total: nat)
    requires InRange(order, |segments|)
    ensures total == TokensAt(segments, order)
  {
    total := 0;
    var i := 0;
    while i < |order|
      invariant 0 <= i <= |order| && total == TokensAt(segments, order[..i])
    {
      assert order[..i + 1][..i] == order[..i];
      total := total + segments[order[i]].tokens;
      i := i + 1;
    }
    assert order[..i] == order;
  }

  method AllocateTokens(segments: seq<Segment>, config: Config) returns (r: seq<Segment>)
    ensures r == Allocated(segments, config) && AllocationOf(segments, config, r)
  {
    AllocatedExact(segments, config);
    var kept := ApplySectionBudgets(segments, config.budgets);
    r := ApplyGlobalBudget(kept, config.maxTotalTokens);
  }

  /** Exactly the segments that come first with their content, so contents differ and none is lost. */
  method Deduplicate(segments: seq<Segment>) returns (deduped: seq<Segment>)
    ensures deduped == Deduped(segments) && exists ks :: FirstOfEach(segments, ks, deduped)
    ensures forall i, j :: 0 <= i < j < |deduped| ==> deduped[i].content != deduped[j].content
    ensures forall c :: HasContent(deduped, c) <==> HasContent(segments, c)
  {
    hide FirstOfEach;
    ghost var ks := DedupedFirsts(segments);
    FirstsCoverContents(segments, ks, Deduped(segments));
    var seen: set<string> := {};
    deduped := [];
    var i := 0;
    while i < |segments|
      invariant 0 <= i <= |segments| && deduped == Deduped(segments[..i])
      invariant forall c :: c in seen <==> HasContent(segments[..i], c)
    {
      var content := segments[i].content;
      assert segments[..i + 1][..i] == segments[..i];
      forall c ensures HasContent(segments[..i + 1], c) <==> HasContent(segments[..i], c) || c == content {
        HasContentSnoc(segments[..i], segments[i], c);
        assert segments[..i] + [segments[i]] == segments[..i + 1];
      }
      if content !in seen {
        seen := seen + {content};
        deduped := deduped + [segments[i]];
      }
      i := i + 1;
    }
    assert segments[..i] == segments;
  }

  lemma HasContentSnoc(segments: seq<Segment>, s: Segment, content: string)
    ensures HasContent(segments + [s], content) <==> HasContent(segments, content) || s.content == content
  {
    if HasContent(segments, content) {
      var i :| 0 <= i < |segments| && segments[i].content == content;
      assert (segments + [s])[i].content == content;
    }
    if s.content == content { assert (segments + [s])[|segments|].content == content; }
    if HasContent(segments + [s], content) {
      var i :| 0 <= i < |segments + [s]| && (segments + [s])[i].content == content;
      assert i < |segments| ==> segments[i].content == content;
    }
  }

  lemma OmittedStep(ids: seq<string>, i: nat, segments: seq<Segment>)
    requires i < |ids|
    ensures Omitted(ids[i..], segments) ==
            (if Lists(segments, ids[i]) then [] else [ids[i]]) + Omitted(ids[i + 1..], segments)
  {
    hide Lists;
    assert ids[i..][1..] == ids[i + 1..];
  }

  lemma NothingOmitted(segments: seq<Segment>)
    ensures Omitted([], segments) == []
  {
  }

  method AddRetrievalHandles(
    segments: seq<Segment>, ids: seq<string>, config: Config, counter: Counter, text: seq<string> -> string)
    returns (r: seq<Segment>)
    ensures r == WithHandles(segments, ids, config, counter, text)
  {
    hide Lists, HandleFits, Handle, Omitted;
    var omitted: seq<string> := [];
    assert ids[0..] == ids;
    var i := 0;
    while i < |ids|
      invariant 0 <= i <= |ids| && Omitted(ids, segments) == omitted + Omitted(ids[i..], segments)
    {
      OmittedStep(ids, i, segments);
      if !Lists(segments, ids[i]) {
        omitted := omitted + [ids[i]];
      }
      i := i + 1;
    }
    NothingOmitted(segments);
    assert ids[i..] == [];
    assert omitted == Omitted(ids, segments);
    if omitted == [] {
      return segments;
    }
    var handle := Handle(omitted, config, counter, text);
    if !HandleFits(segments, handle, config) {
      return segments;
    }
    r := segments + [handle];
  }

  /** Deduplication, token counts, allocation and handles, each by what it keeps or adds. */
  ghost predicate SelectionOf(
    segments: seq<Segment>, ids: seq<string>, config: Config, counter: Counter, text: seq<string> -> string,
    r: seq<Segment>)
  {
    exists ks, firsts: seq<Segment>, counted: seq<Segment>, kept, ls, omitted ::
      && FirstOfEach(segments, ks, firsts)
      && |counted| == |firsts|
      && (forall i :: 0 <= i < |firsts| ==> counted[i] == firsts[i].(tokens := counter(firsts[i].content)))
      && AllocationOf(counted, config, kept)
      && HandlesAdded(kept, ids, config, counter, text, ls, omitted, r)
  }

  lemma SelectedExact(
    segments: seq<Segment>, ids: seq<string>, config: Config, counter: Counter, text: seq<string> -> string)
    ensures SelectionOf(segments, ids, config, counter, text, Selected(segments, ids, config, counter, text))
  {
    hide FirstOfEach, AllocationOf, HandlesAdded, Deduped, Allocated, WithHandles;
    var ks := DedupedFirsts(segments);
    var firsts := Deduped(segments);
    var counted := Counted(firsts, counter);
    AllocatedExact(counted, config);
    var kept := Allocated(counted, config);
    var ls, omitted := HandlesExact(kept, ids, config, counter, text);
    assert FirstOfEach(segments, ks, firsts) && AllocationOf(counted, config, kept)
        && HandlesAdded(kept, ids, config, counter, text, ls, omitted, Selected(segments, ids, config, counter, text));
  }

  method Select(segments: seq<Segment>, ids: seq<string>, config: Config, counter: Counter, text: seq<string> -> string)
    returns (r: seq<Segment>)
    ensures r == Selected(segments, ids, config, counter, text)
    ensures SelectionOf(segments, ids, config, counter, text, r)
  {
    hide WithHandles, Allocated, Deduped, Counted, SelectionOf;
    SelectedExact(segments, ids, config, counter, text);
    var deduped := Deduplicate(segments);
    var kept := AllocateTokens(Counted(deduped, counter), config);
    r := AddRetrievalHandles(kept, ids, config, counter, text);
  }
}
