/** Results that keep some elements of a sequence, in order. */
module Subsequences {

  /** r consists of the elements of xs at the positions ks, in order. */
  ghost predicate PickedAt<T>(xs: seq<T>, ks: seq<nat>, r: seq<T>) {
    && |r| == |ks|
    && (forall j :: 0 <= j < |ks| ==> ks[j] < |xs| && r[j] == xs[ks[j]])
    && (forall i, j :: 0 <= i < j < |ks| ==> ks[i] < ks[j])
  }

  lemma PickedBelow<T>(xs: seq<T>, ks: seq<nat>, r: seq<T>)
    requires PickedAt(xs, ks, r)
    ensures forall k :: k in ks ==> k < |xs|
  {
  }

  /** One more element, taken or not. */
  lemma PickNext<T>(xs: seq<T>, ks: seq<nat>, r: seq<T>, x: T, take: bool)
    requires PickedAt(xs, ks, r)
    ensures var ls := if take then ks + [|xs|] else ks;
      && PickedAt(xs + [x], ls, if take then r + [x] else r)
      && (|xs| in ls <==> take)
      && forall k :: 0 <= k < |xs| ==> (k in ls <==> k in ks)
  {
    PickedBelow(xs, ks, r);
  }

  function Later(ks: seq<nat>): (ls: seq<nat>)
    ensures |ls| == |ks| && forall j :: 0 <= j < |ks| ==> ls[j] == ks[j] + 1
  {
    seq(|ks|, j requires 0 <= j < |ks| => ks[j] + 1)
  }

  lemma InLater(ks: seq<nat>, k: nat)
    ensures k + 1 in Later(ks) <==> k in ks
    ensures 0 !in Later(ks)
  {
    if k in ks {
      var j :| 0 <= j < |ks| && ks[j] == k;
      assert Later(ks)[j] == k + 1;
    }
  }

  lemma PickLater<T>(x: T, xs: seq<T>, ks: seq<nat>, r: seq<T>)
    requires PickedAt(xs, ks, r)
    ensures PickedAt([x] + xs, Later(ks), r)
  {
  }

  lemma PickFront<T>(xs: seq<T>, ks: seq<nat>, r: seq<T>)
    requires PickedAt(xs, ks, r) && xs != [] && forall j :: 0 <= j < |ks| ==> ks[j] > 0
    ensures PickedAt(xs, [0] + ks, [xs[0]] + r)
  {
  }

  /** One more element in front, taken or not. */
  lemma PickFirst<T>(x: T, xs: seq<T>, ks: seq<nat>, r: seq<T>, take: bool)
    requires PickedAt(xs, ks, r)
    ensures var ls := if take then [0] + Later(ks) else Later(ks);
      && PickedAt([x] + xs, ls, if take then [x] + r else r)
      && (0 in ls <==> take)
      && forall k: nat :: k < |xs| ==> (k + 1 in ls <==> k in ks)
  {
    hide PickedAt;
    PickLater(x, xs, ks, r);
    PickFront([x] + xs, Later(ks), r);
    forall k: nat ensures (k + 1 in Later(ks) <==> k in ks) && 0 !in Later(ks) { InLater(ks, k); }
    forall k: nat | k in [0] + Later(ks) && k > 0 ensures k in Later(ks) { InFront(Later(ks), k); }
    forall k: nat | k in Later(ks) ensures k in [0] + Later(ks) { if k > 0 { InFront(Later(ks), k); } }
  }

  lemma InFront(ks: seq<nat>, k: nat)
    requires k > 0
    ensures k in [0] + ks <==> k in ks
  {
  }

  /** Without its last element. */
  lemma PickedInit<T>(xs: seq<T>, ks: seq<nat>, r: seq<T>) returns (ls: seq<nat>)
    requires PickedAt(xs, ks, r) && xs != []
    ensures var n := |xs| - 1;
      && PickedAt(xs[..n], ls, if n in ks then r[..|r| - 1] else r)
      && (n in ks ==> r == r[..|r| - 1] + [xs[n]])
      && forall k :: 0 <= k < n ==> (k in ls <==> k in ks)
  {
    var n := |xs| - 1;
    if n in ks {
      ls := ks[..|ks| - 1];
      LastPick(xs, ks, r);
      assert ks == ls + [n];
    } else {
      ls := ks;
      PicksBelowLast(xs, ks, r);
    }
  }

  lemma LastPick<T>(xs: seq<T>, ks: seq<nat>, r: seq<T>)
    requires PickedAt(xs, ks, r) && xs != [] && |xs| - 1 in ks
    ensures |r| == |ks| > 0 && ks[|ks| - 1] == |xs| - 1 && r == r[..|r| - 1] + [xs[|xs| - 1]]
    ensures forall j :: 0 <= j < |ks| - 1 ==> ks[j] < |xs| - 1
  {
    var i :| 0 <= i < |ks| && ks[i] == |xs| - 1;
    assert forall j :: 0 <= j < |ks| - 1 ==> ks[j] < ks[|ks| - 1] < |xs|;
  }

  lemma PicksBelowLast<T>(xs: seq<T>, ks: seq<nat>, r: seq<T>)
    requires PickedAt(xs, ks, r) && xs != [] && |xs| - 1 !in ks
    ensures forall j :: 0 <= j < |ks| ==> ks[j] < |xs| - 1
  {
    forall j | 0 <= j < |ks| ensures ks[j] < |xs| - 1 { assert ks[j] in ks; }
  }
}
