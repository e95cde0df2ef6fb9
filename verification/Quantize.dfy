/** rfsn_kv/codecs/quantize.py: min-max quantization of bytes in groups, with nibble packing and framing. */
module Quantize {
  import opened Results
  import opened QuantizeArithmetic

  type Byte = x: int | 0 <= x < 256

  datatype CodecError = StructError

  // ----- groups -----

  function Least(group: seq<Byte>): (m: Byte)
    requires group != []
    ensures m in group && forall k :: 0 <= k < |group| ==> m <= group[k]
  {
    if |group| == 1 then group[0]
    else
      var rest := Least(group[..|group| - 1]);
      if group[|group| - 1] < rest then group[|group| - 1] else rest
  }

  function Greatest(group: seq<Byte>): (m: Byte)
    requires group != []
    ensures m in group && forall k :: 0 <= k < |group| ==> group[k] <= m
  {
    if |group| == 1 then group[0]
    else
      var rest := Greatest(group[..|group| - 1]);
      if group[|group| - 1] > rest then group[|group| - 1] else rest
  }

  function SplitGroups(d: seq<Byte>, g: nat): (groups: seq<seq<Byte>>)
    requires g > 0
    ensures forall k :: 0 <= k < |groups| ==> groups[k] != []
    ensures |groups| <= |d| && (d != [] ==> groups != [])
  {
    if d == [] then []
    else if |d| <= g then [d]
    else [d[..g]] + SplitGroups(d[g..], g)
  }

  // ----- packing -----

  function Indices(group: seq<Byte>, lo: Byte, hi: Byte, w: BitWidth, rnd: Rounder): (indices: seq<int>)
    ensures |indices| == |group|
    ensures forall k :: 0 <= k < |group| ==> indices[k] == Index(group[k] - lo, hi - lo, w, rnd)
  {
    seq(|group|, k requires 0 <= k < |group| => Index(group[k] - lo, hi - lo, w, rnd))
  }

  function PackPair(high: int, low: int): Byte {
    (high % 16) * 16 + low % 16
  }

  function High(b: Byte): int {
    b / 16
  }

  function Low(b: Byte): int {
    b % 16
  }

  lemma UnpackPair(high: int, low: int)
    requires 0 <= high <= 15 && 0 <= low <= 15
    ensures High(PackPair(high, low)) == high && Low(PackPair(high, low)) == low
  {
  }

  /** Two indices per byte, the first one in the high half. */
  function PackNibbles(indices: seq<int>): (packed: seq<Byte>)
    ensures |packed| == (|indices| + 1) / 2
  {
    if indices == [] then []
    else if |indices| == 1 then [PackPair(indices[0], 0)]
    else [PackPair(indices[0], indices[1])] + PackNibbles(indices[2..])
  }

  /** At most n indices. */
  function UnpackNibbles(packed: seq<Byte>, n: int): (indices: seq<int>)
    ensures AllWithin(indices, 15)
  {
    if packed == [] || n <= 0 then []
    else if n == 1 then [High(packed[0])]
    else [High(packed[0]), Low(packed[0])] + UnpackNibbles(packed[1..], n - 2)
  }

  ghost predicate AllWithin(indices: seq<int>, m: int) {
    forall k :: 0 <= k < |indices| ==> 0 <= indices[k] <= m
  }

  /** Unpacking n indices returns those that were packed, and the padding if there is room for it. */
  lemma {:induction false} UnpackPack(indices: seq<int>, n: int)
    requires AllWithin(indices, 15) && |indices| <= n
    ensures UnpackNibbles(PackNibbles(indices), n) == indices + if |indices| % 2 == 1 && |indices| < n then [0] else []
  {
    hide PackPair, High, Low;
    if |indices| >= 2 {
      UnpackPair(indices[0], indices[1]);
      UnpackPack(indices[2..], n - 2);
      assert indices == [indices[0], indices[1]] + indices[2..];
      assert PackNibbles(indices)[1..] == PackNibbles(indices[2..]);
    } else if |indices| == 1 {
      UnpackPair(indices[0], 0);
    }
  }

  function PackU32(n: int): (b: seq<Byte>)
    ensures |b| == 4
  {
    [n / 0x100_0000 % 256, n / 0x1_0000 % 256, n / 0x100 % 256, n % 256]
  }

  function UnpackU32(b: seq<Byte>): (n: nat)
    requires |b| == 4
  {
    var high: int, upper: int, lower: int, low: int := b[0], b[1], b[2], b[3];
    high * 0x100_0000 + upper * 0x1_0000 + lower * 0x100 + low
  }

  lemma UnpackPackU32(n: int)
    requires 0 <= n < 0x1_0000_0000
    ensures UnpackU32(PackU32(n)) == n
  {
  }

  // ----- the codec -----

  /** bytes(indices), where every index is a byte. */
  function AsBytes(indices: seq<int>): (b: seq<Byte>)
    requires forall k :: 0 <= k < |indices| ==> 0 <= indices[k] < 256
    ensures b == indices
  {
    seq(|indices|, k requires 0 <= k < |indices| => indices[k])
  }

  lemma IndicesInRange(group: seq<Byte>, w: BitWidth, rnd: Rounder)
    requires group != []
    ensures AllWithin(Indices(group, Least(group), Greatest(group), w, rnd), MaxIndex(w))
  {
    hide Least, Greatest, Index;
    var lo, hi := Least(group), Greatest(group);
    forall k | 0 <= k < |group| ensures 0 <= Indices(group, lo, hi, w, rnd)[k] <= MaxIndex(w) {
      IndexInRange(group[k] - lo, hi - lo, w, rnd);
    }
  }

  function EncodeBody(group: seq<Byte>, w: BitWidth, rnd: Rounder): seq<Byte>
    requires group != []
  {
    IndicesInRange(group, w, rnd);
    var indices := Indices(group, Least(group), Greatest(group), w, rnd);
    if w.Four? then PackNibbles(indices) else AsBytes(indices)
  }

  function EncodeGroups(groups: seq<seq<Byte>>, w: BitWidth, rnd: Rounder): seq<Byte>
    requires forall k :: 0 <= k < |groups| ==> groups[k] != []
  {
    if groups == [] then []
    else [Least(groups[0]), Greatest(groups[0])] + EncodeBody(groups[0], w, rnd) + EncodeGroups(groups[1..], w, rnd)
  }

  /** compress, on the bytes of a page. */
  function Compressed(d: seq<Byte>, g: nat, w: BitWidth, rnd: Rounder): Result<seq<Byte>, CodecError>
    requires g >= 2
  {
    if d == [] then Success([])
    else
      var groups := SplitGroups(d, g);
      if g >= 0x1_0000_0000 || |groups| >= 0x1_0000_0000 then Failure(StructError)
      else Success(PackU32(g) + PackU32(|groups|) + EncodeGroups(groups, w, rnd))
  }

  function Take(b: seq<Byte>, n: nat): seq<Byte> {
    if n <= |b| then b[..n] else b
  }

  function Drop(b: seq<Byte>, n: nat): seq<Byte> {
    if n <= |b| then b[n..] else []
  }

  /** The number of bytes that the decoder takes for the indices of a group. */
  function BodyLength(g: nat, w: BitWidth): nat {
    if w.Four? then (g + 1) / 2 else g
  }

  function DecodeBody(body: seq<Byte>, g: nat, w: BitWidth): (indices: seq<int>)
    ensures AllWithin(indices, MaxIndex(w))
  {
    if w.Four? then UnpackNibbles(body, g) else seq(|body|, k requires 0 <= k < |body| => body[k])
  }

  function RestoreAll(indices: seq<int>, lo: Byte, hi: Byte, w: BitWidth, rnd: Rounder): (restored: seq<Byte>)
    requires AllWithin(indices, MaxIndex(w))
    ensures |restored| == |indices|
  {
    if indices == [] then []
    else
      RestoreInRange(indices[|indices| - 1], hi - lo, w, rnd);
      RestoreAll(indices[..|indices| - 1], lo, hi, w, rnd) + [lo + Restore(indices[|indices| - 1], hi - lo, w, rnd)]
  }

  /** n groups of g indices each, of which the last may be short. */
  function DecodeGroups(b: seq<Byte>, n: nat, g: nat, w: BitWidth, rnd: Rounder): Result<seq<Byte>, CodecError>
    decreases n
  {
    if n == 0 then Success([])
    else if |b| < 2 then Failure(StructError)
    else
      var first := RestoreAll(DecodeBody(Take(b[2..], BodyLength(g, w)), g, w), b[0], b[1], w, rnd);
      var rest :- DecodeGroups(Drop(b[2..], BodyLength(g, w)), n - 1, g, w, rnd);
      Success(first + rest)
  }

  /** decompress, on the bytes of a page. */
  function Decompressed(b: seq<Byte>, w: BitWidth, rnd: Rounder): Result<seq<Byte>, CodecError> {
    if b == [] then Success([])
    else if |b| < 8 then Failure(StructError)
    else DecodeGroups(b[8..], UnpackU32(b[4..8]), UnpackU32(b[..4]), w, rnd)
  }

  // ----- what decompress makes of compressed data -----

  function RestoredGroup(group: seq<Byte>, w: BitWidth, rnd: Rounder): (r: seq<Byte>)
    requires group != []
    ensures |r| == |group|
  {
    IndicesInRange(group, w, rnd);
    RestoreAll(Indices(group, Least(group), Greatest(group), w, rnd), Least(group), Greatest(group), w, rnd)
  }

  /** The padding of a short odd group is decoded as one more byte. */
  function Extra(group: seq<Byte>, g: nat, w: BitWidth): seq<Byte>
    requires group != []
  {
    if w.Four? && |group| < g && |group| % 2 == 1 then [Least(group)] else []
  }

  function Decoded(d: seq<Byte>, g: nat, w: BitWidth, rnd: Rounder): (r: seq<Byte>)
    requires g >= 2
    ensures d != [] ==> |r| > 0
  {
    if d == [] then []
    else if |d| <= g then RestoredGroup(d, w, rnd) + Extra(d, g, w)
    else RestoredGroup(d[..g], w, rnd) + Decoded(d[g..], g, w, rnd)
  }

  /** The decoder recovers the indices of a full group, and of a short last group with its padding. */
  lemma DecodeEncodedBody(group: seq<Byte>, g: nat, w: BitWidth, rnd: Rounder)
    requires group != [] && |group| <= g
    ensures |EncodeBody(group, w, rnd)| <= BodyLength(g, w)
    ensures |group| == g ==> |EncodeBody(group, w, rnd)| == BodyLength(g, w)
    ensures DecodeBody(EncodeBody(group, w, rnd), g, w) ==
            Indices(group, Least(group), Greatest(group), w, rnd) + if Extra(group, g, w) != [] then [0] else []
  {
    IndicesInRange(group, w, rnd);
    var indices := Indices(group, Least(group), Greatest(group), w, rnd);
    if w.Four? {
      UnpackPack(indices, g);
    } else {
      assert indices + [] == indices;
      assert DecodeBody(AsBytes(indices), g, w) == indices;
    }
  }

  lemma DecodeEncodedGroup(group: seq<Byte>, g: nat, w: BitWidth, rnd: Rounder)
    requires group != [] && |group| <= g
    ensures RestoreAll(DecodeBody(EncodeBody(group, w, rnd), g, w), Least(group), Greatest(group), w, rnd)
         == RestoredGroup(group, w, rnd) + Extra(group, g, w)
  {
    hide EncodeBody, DecodeBody, Least, Greatest, Restore, Index;
    var lo, hi := Least(group), Greatest(group);
    DecodeEncodedBody(group, g, w, rnd);
    IndicesInRange(group, w, rnd);
    RestoreInRange(0, hi - lo, w, rnd);
    var indices, decoded := Indices(group, lo, hi, w, rnd), DecodeBody(EncodeBody(group, w, rnd), g, w);
    if Extra(group, g, w) == [] {
      assert decoded == indices;
    } else {
      assert decoded[..|decoded| - 1] == indices && decoded[|decoded| - 1] == 0;
    }
  }

  /** The decoder consumes exactly what the encoder wrote for one group. */
  lemma DecodeStep(group: seq<Byte>, rest: seq<Byte>, n: nat, g: nat, w: BitWidth, rnd: Rounder)
    requires group != [] && |group| <= g && (|group| < g ==> rest == [])
    ensures DecodeGroups([Least(group), Greatest(group)] + EncodeBody(group, w, rnd) + rest, n + 1, g, w, rnd) ==
            match DecodeGroups(rest, n, g, w, rnd)
            case Success(tail) => Success(RestoredGroup(group, w, rnd) + Extra(group, g, w) + tail)
            case Failure(error) => Failure(error)
  {
    hide EncodeBody, DecodeBody, RestoredGroup, RestoreAll, Extra, BodyLength, Least, Greatest;
    var body := EncodeBody(group, w, rnd);
    var b := [Least(group), Greatest(group)] + body + rest;
    DecodeEncodedBody(group, g, w, rnd);
    DecodeEncodedGroup(group, g, w, rnd);
    assert b[2..] == body + rest;
    if |group| < g { assert b[2..] == body; }
    assert Take(b[2..], BodyLength(g, w)) == body && Drop(b[2..], BodyLength(g, w)) == rest;
  }

  lemma {:induction false} DecodeEncodedGroups(d: seq<Byte>, g: nat, w: BitWidth, rnd: Rounder)
    requires g >= 2
    ensures DecodeGroups(EncodeGroups(SplitGroups(d, g), w, rnd), |SplitGroups(d, g)|, g, w, rnd)
         == Success(Decoded(d, g, w, rnd))
    decreases |d|
  {
    hide EncodeBody, DecodeGroups, EncodeGroups, RestoredGroup, Extra, Least, Greatest;
    NoGroups(g, w, rnd);
    if |d| > g {
      var later := SplitGroups(d[g..], g);
      EncodeCons(d[..g], later, w, rnd);
      DecodeStep(d[..g], EncodeGroups(later, w, rnd), |later|, g, w, rnd);
      NoExtraInFullGroup(d[..g], g, w);
      DecodeEncodedGroups(d[g..], g, w, rnd);
      assert RestoredGroup(d[..g], w, rnd) + [] + Decoded(d[g..], g, w, rnd) == Decoded(d, g, w, rnd);
    } else if d != [] {
      EncodeCons(d, [], w, rnd);
      assert [d] + [] == [d];
      DecodeStep(d, [], 0, g, w, rnd);
      assert RestoredGroup(d, w, rnd) + Extra(d, g, w) + [] == RestoredGroup(d, w, rnd) + Extra(d, g, w);
    }
  }

  lemma EncodeCons(group: seq<Byte>, groups: seq<seq<Byte>>, w: BitWidth, rnd: Rounder)
    requires group != [] && forall k :: 0 <= k < |groups| ==> groups[k] != []
    ensures EncodeGroups([group] + groups, w, rnd) ==
            [Least(group), Greatest(group)] + EncodeBody(group, w, rnd) + EncodeGroups(groups, w, rnd)
  {
    hide EncodeBody, Least, Greatest;
    assert ([group] + groups)[1..] == groups;
  }

  lemma NoGroups(g: nat, w: BitWidth, rnd: Rounder)
    ensures DecodeGroups([], 0, g, w, rnd) == Success([]) && EncodeGroups([], w, rnd) == []
  {
  }

  lemma NoExtraInFullGroup(group: seq<Byte>, g: nat, w: BitWidth)
    requires group != []
    ensures |group| >= g ==> Extra(group, g, w) == []
  {
  }

  /** Whatever compress returns, decompress accepts. */
  lemma DecompressCompressed(d: seq<Byte>, g: nat, w: BitWidth, rnd: Rounder)
    requires g >= 2 && Compressed(d, g, w, rnd).Success?
    ensures Decompressed(Compressed(d, g, w, rnd).value, w, rnd) == Success(Decoded(d, g, w, rnd))
  {
    hide EncodeGroups, DecodeGroups, PackU32, UnpackU32;
    if d != [] {
      var n := |SplitGroups(d, g)|;
      var b := Compressed(d, g, w, rnd).value;
      UnpackPackU32(g);
      UnpackPackU32(n);
      DecodeEncodedGroups(d, g, w, rnd);
      assert b[..4] == PackU32(g) && b[4..8] == PackU32(n) && b[8..] == EncodeGroups(SplitGroups(d, g), w, rnd);
    }
  }

  // ----- the main results -----

  /** The bytes that share a group with byte i. */
  function GroupOf(d: seq<Byte>, g: nat, i: nat): (group: seq<Byte>)
    requires g >= 2 && i < |d|
    ensures group != [] && d[i] in group
    decreases i
  {
    if i < g then
      assert Take(d, g)[i] == d[i];
      Take(d, g)
    else GroupOf(d[g..], g, i - g)
  }

  function Min(a: int, b: int): int {
    if a < b then a else b
  }

  lemma {:induction false} GroupOfIsSlice(d: seq<Byte>, g: nat, i: nat)
    requires g >= 2 && i < |d|
    ensures Rem(i, g) <= i && GroupOf(d, g, i) == d[i - Rem(i, g)..Min(|d|, i - Rem(i, g) + g)]
    decreases i
  {
    hide Rem;
    RemStep(i, g);
    if i >= g {
      GroupOfIsSlice(d[g..], g, i - g);
    }
  }

  /** r may stand for b in its group. */
  predicate Accurate(r: int, b: Byte, group: seq<Byte>)
    requires group != []
  {
    var lo, hi := Least(group), Greatest(group);
    && lo <= r <= hi
    && 30 * Abs(r - b) <= hi - lo + 15
    && (hi - lo <= 15 ==> r == b)
  }

  lemma {:induction false} RestoreAllAt(indices: seq<int>, k: nat, lo: Byte, hi: Byte, w: BitWidth, rnd: Rounder)
    requires AllWithin(indices, MaxIndex(w)) && k < |indices|
    ensures RestoreAll(indices, lo, hi, w, rnd)[k] == lo + Restore(indices[k], hi - lo, w, rnd)
    decreases |indices|
  {
    hide Restore;
    if k < |indices| - 1 {
      RestoreAllAt(indices[..|indices| - 1], k, lo, hi, w, rnd);
    }
  }

  lemma RestoredIs(group: seq<Byte>, k: nat, w: BitWidth, rnd: Rounder)
    requires k < |group|
    ensures var lo, hi := Least(group), Greatest(group);
      RestoredGroup(group, w, rnd)[k] == lo + Restore(Index(group[k] - lo, hi - lo, w, rnd), hi - lo, w, rnd)
  {
    hide Least, Greatest, Index, Restore, AllWithin, RestoreAll;
    IndicesInRange(group, w, rnd);
    RestoreAllAt(Indices(group, Least(group), Greatest(group), w, rnd), k, Least(group), Greatest(group), w, rnd);
  }

  lemma RestoredByte(group: seq<Byte>, k: nat, w: BitWidth, rnd: Rounder)
    requires k < |group|
    ensures var lo, hi, r := Least(group), Greatest(group), RestoredGroup(group, w, rnd)[k];
      && Accurate(r, group[k], group)
      && (w.Eight? ==> r == group[k])
      && (group[k] == lo ==> r == lo) && (group[k] == hi ==> r == hi)
      && Index(r - lo, hi - lo, w, rnd) == Index(group[k] - lo, hi - lo, w, rnd)
  {
    hide Least, Greatest, Restore, RestoredGroup;
    var lo, hi := Least(group), Greatest(group);
    var a := group[k] - lo;
    RestoredIs(group, k, w, rnd);
    IndexInRange(a, hi - lo, w, rnd);
    RoundTrip(a, hi - lo, w, rnd);
    RestoreInRange(Index(a, hi - lo, w, rnd), hi - lo, w, rnd);
    IndexStable(a, hi - lo, w, rnd);
  }

  lemma EightGroup(group: seq<Byte>, g: nat, rnd: Rounder)
    requires group != []
    ensures RestoredGroup(group, Eight, rnd) == group && Extra(group, g, Eight) == []
  {
    hide Least, Greatest, RestoredGroup, Index;
    forall k | 0 <= k < |group| ensures RestoredGroup(group, Eight, rnd)[k] == group[k] {
      RestoredByte(group, k, Eight, rnd);
    }
  }

  /** With eight bits nothing is lost, whatever the length, the group size and the rounding of ties. */
  lemma {:induction false} EightBitLossless(d: seq<Byte>, g: nat, rnd: Rounder)
    requires g >= 2
    ensures Decoded(d, g, Eight, rnd) == d
    decreases |d|
  {
    hide Least, Greatest, RestoredGroup, Extra;
    if |d| > g {
      EightGroup(d[..g], g, rnd);
      EightBitLossless(d[g..], g, rnd);
    } else if d != [] {
      EightGroup(d, g, rnd);
    }
  }

  /** With four bits every byte stays within the range of its group, is off by at most (span + 15) / 30,
    and is exact in a group of span at most 15. */
  lemma {:induction false} FourBitAccurate(d: seq<Byte>, g: nat, rnd: Rounder, i: nat)
    requires g >= 2 && i < |d|
    ensures var r := Decoded(d, g, Four, rnd); i < |r| && Accurate(r[i], d[i], GroupOf(d, g, i))
    decreases |d|
  {
    hide RestoredGroup, Accurate, Extra;
    if i < g {
      if |d| == g { assert d[..g] == d; }
      RestoredByte(Take(d, g), i, Four, rnd);
    } else {
      FourBitAccurate(d[g..], g, rnd, i - g);
    }
  }

  /** The output is longer by one byte exactly when the last group is short and odd; that byte is its minimum. */
  lemma {:induction false} FourBitLength(d: seq<Byte>, g: nat, rnd: Rounder)
    requires g >= 2
    ensures OneMoreByteIf(Odd(Rem(|d|, g)), d, Decoded(d, g, Four, rnd), Rem(|d|, g))
    decreases |d|
  {
    hide Least, Greatest, RestoredGroup, Rem, Odd, Extra, OneMoreByteIf;
    RemStep(|d|, g);
    if |d| > g {
      FourBitLength(d[g..], g, rnd);
      LongerStep(Odd(Rem(|d|, g)), d, g, RestoredGroup(d[..g], Four, rnd), Decoded(d[g..], g, Four, rnd), Rem(|d|, g));
    } else {
      LongerLast(d, g, rnd);
    }
  }

  lemma LongerStep(longer: bool, d: seq<Byte>, g: nat, first: seq<Byte>, r: seq<Byte>, last: nat)
    requires g <= |d| && |first| == g && OneMoreByteIf(longer, d[g..], r, last)
    ensures OneMoreByteIf(longer, d, first + r, last)
  {
    hide Least;
    if longer {
      assert d[g..][|d[g..]| - last..] == d[|d| - last..];
    }
  }

  lemma LongerLast(d: seq<Byte>, g: nat, rnd: Rounder)
    requires |d| <= g && g >= 2
    ensures var last := if |d| == g then 0 else |d|; OneMoreByteIf(Odd(last), d, Decoded(d, g, Four, rnd), last)
  {
    hide Least, Greatest, RestoredGroup;
    assert d[0..] == d;
  }

  predicate Odd(n: nat) {
    n % 2 == 1
  }

  /** r is as long as d, or one byte longer; then that byte is the minimum of the last bytes of d. */
  predicate OneMoreByteIf(longer: bool, d: seq<Byte>, r: seq<Byte>, last: nat) {
    if longer then 0 < last <= |d| && |r| == |d| + 1 && r[|d|] == Least(d[|d| - last..]) else |r| == |d|
  }

  lemma LeastOf(group: seq<Byte>, m: Byte)
    requires m in group && forall k :: 0 <= k < |group| ==> m <= group[k]
    ensures Least(group) == m
  {
  }

  lemma GreatestOf(group: seq<Byte>, m: Byte)
    requires m in group && forall k :: 0 <= k < |group| ==> group[k] <= m
    ensures Greatest(group) == m
  {
  }

  /** A restored group, with or without the extra byte, has the range of the original. */
  lemma RestoredRange(group: seq<Byte>, g: nat, w: BitWidth, rnd: Rounder)
    requires group != []
    ensures var again := RestoredGroup(group, w, rnd) + Extra(group, g, w);
      Least(again) == Least(group) && Greatest(again) == Greatest(group)
  {
    hide Least, Greatest, RestoredGroup, Index, Restore;
    var lo, hi := Least(group), Greatest(group);
    var r, again := RestoredGroup(group, w, rnd), RestoredGroup(group, w, rnd) + Extra(group, g, w);
    forall k | 0 <= k < |group| ensures again[k] == r[k] && lo <= r[k] <= hi { RestoredByte(group, k, w, rnd); }
    var i :| 0 <= i < |group| && group[i] == lo;
    RestoredByte(group, i, w, rnd);
    assert again[i] == lo;
    var j :| 0 <= j < |group| && group[j] == hi;
    RestoredByte(group, j, w, rnd);
    assert again[j] == hi;
    LeastOf(again, lo);
    GreatestOf(again, hi);
  }

  /** An odd number of indices packs like the same indices and a zero. */
  lemma {:induction false} PackPadding(indices: seq<int>)
    requires |indices| % 2 == 1
    ensures PackNibbles(indices + [0]) == PackNibbles(indices)
  {
    hide PackPair;
    if |indices| > 1 {
      PackPadding(indices[2..]);
      assert (indices + [0])[2..] == indices[2..] + [0];
    }
  }

  lemma EncodeRestored(group: seq<Byte>, g: nat, w: BitWidth, rnd: Rounder)
    requires group != []
    ensures EncodeBody(RestoredGroup(group, w, rnd) + Extra(group, g, w), w, rnd) == EncodeBody(group, w, rnd)
  {
    hide Least, Greatest, RestoredGroup, Index, Restore, PackNibbles;
    var lo, hi := Least(group), Greatest(group);
    var again := RestoredGroup(group, w, rnd) + Extra(group, g, w);
    RestoredRange(group, g, w, rnd);
    var a, b := Indices(group, lo, hi, w, rnd), Indices(again, lo, hi, w, rnd);
    forall k | 0 <= k < |group| ensures b[k] == a[k] { RestoredByte(group, k, w, rnd); }
    IndicesInRange(group, w, rnd);
    IndicesInRange(again, w, rnd);
    if Extra(group, g, w) == [] {
      assert a == b;
    } else {
      IndexInRange(0, hi - lo, w, rnd);
      assert b == a + [0];
      PackPadding(a);
    }
  }

  lemma {:induction false} EncodeDecoded(d: seq<Byte>, g: nat, w: BitWidth, rnd: Rounder)
    requires g >= 2
    ensures var again := SplitGroups(Decoded(d, g, w, rnd), g);
      && |again| == |SplitGroups(d, g)|
      && EncodeGroups(again, w, rnd) == EncodeGroups(SplitGroups(d, g), w, rnd)
    decreases |d|
  {
    hide EncodeBody, RestoredGroup, EncodeGroups, Least, Greatest;
    if |d| > g {
      var first, later := RestoredGroup(d[..g], w, rnd), Decoded(d[g..], g, w, rnd);
      assert (first + later)[..g] == first && (first + later)[g..] == later;
      EncodeDecoded(d[g..], g, w, rnd);
      NoExtraInFullGroup(d[..g], g, w);
      assert first + Extra(d[..g], g, w) == first;
      EncodeRestored(d[..g], g, w, rnd);
      RestoredRange(d[..g], g, w, rnd);
      EncodeCons(d[..g], SplitGroups(d[g..], g), w, rnd);
      EncodeCons(first, SplitGroups(later, g), w, rnd);
    } else if d != [] {
      var again := RestoredGroup(d, w, rnd) + Extra(d, g, w);
      EncodeRestored(d, g, w, rnd);
      RestoredRange(d, g, w, rnd);
      EncodeCons(d, [], w, rnd);
      EncodeCons(again, [], w, rnd);
      assert [d] + [] == [d] && [again] + [] == [again];
    }
  }

  /** Compression is stable: compressing what was decompressed gives the same bytes again, although what
    was decompressed may be longer than the original. */
  lemma CompressionStable(d: seq<Byte>, g: nat, w: BitWidth, rnd: Rounder)
    requires g >= 2 && Compressed(d, g, w, rnd).Success?
    ensures var once := Compressed(d, g, w, rnd);
      var back := Decompressed(once.value, w, rnd);
      back.Success? && Compressed(back.value, g, w, rnd) == once
  {
    hide Decompressed, EncodeGroups, SplitGroups, PackU32;
    DecompressCompressed(d, g, w, rnd);
    EncodeDecoded(d, g, w, rnd);
  }

  /** compress then decompress, as the two methods are used together. */
  lemma EightBitRoundTrip(d: seq<Byte>, g: nat, rnd: Rounder)
    requires g >= 2
    ensures Compressed(d, g, Eight, rnd).Success? <==>
              d == [] || (g < 0x1_0000_0000 && |SplitGroups(d, g)| < 0x1_0000_0000)
    ensures Compressed(d, g, Eight, rnd).Success? ==>
              Decompressed(Compressed(d, g, Eight, rnd).value, Eight, rnd) == Success(d)
  {
    hide Decompressed, EncodeGroups, SplitGroups, PackU32;
    if Compressed(d, g, Eight, rnd).Success? {
      DecompressCompressed(d, g, Eight, rnd);
      EightBitLossless(d, g, rnd);
    }
  }

  /** With four bits, what comes back is accurate byte for byte, with at most one byte more. */
  lemma FourBitRoundTrip(d: seq<Byte>, g: nat, rnd: Rounder)
    requires g >= 2 && Compressed(d, g, Four, rnd).Success?
    ensures var back := Decompressed(Compressed(d, g, Four, rnd).value, Four, rnd);
      && back.Success?
      && OneMoreByteIf(Odd(Rem(|d|, g)), d, back.value, Rem(|d|, g))
      && |d| <= |back.value|
      && forall i :: 0 <= i < |d| ==> Accurate(back.value[i], d[i], GroupOf(d, g, i))
  {
    hide Compressed, Decompressed, Accurate, Rem, Decoded, GroupOf, Odd, Least;
    DecompressCompressed(d, g, Four, rnd);
    FourBitLength(d, g, rnd);
    forall i | 0 <= i < |d| ensures Accurate(Decoded(d, g, Four, rnd)[i], d[i], GroupOf(d, g, i)) {
      FourBitAccurate(d, g, rnd, i);
    }
  }

  /** The offset behind the header of the n-th group. */
  function HeadersEnd(n: nat, g: nat, w: BitWidth): nat {
    if n == 0 then 0 else if n == 1 then 2 else 2 + BodyLength(g, w) + HeadersEnd(n - 1, g, w)
  }

  /** On arbitrary bytes the decoder fails exactly when a group header is cut short; the indices of the last
    group may be. */
  lemma {:induction false} DecodeSucceedsIff(b: seq<Byte>, n: nat, g: nat, w: BitWidth, rnd: Rounder)
    ensures DecodeGroups(b, n, g, w, rnd).Success? <==> |b| >= HeadersEnd(n, g, w)
    decreases n
  {
    hide RestoreAll, DecodeBody, BodyLength;
    if n > 0 && |b| >= 2 {
      DecodeSucceedsIff(Drop(b[2..], BodyLength(g, w)), n - 1, g, w, rnd);
    }
  }

  // ----- the loops -----

  method Pack4Bit(indices: seq<int>) returns (packed: seq<Byte>)
    ensures packed == PackNibbles(indices)
  {
    hide PackPair;
    packed := [];
    var i := 0;
    while i < |indices|
      invariant 0 <= i <= |indices| + 1 && i % 2 == 0
      invariant i <= |indices| ==> PackNibbles(indices) == packed + PackNibbles(indices[i..])
      invariant i > |indices| ==> PackNibbles(indices) == packed
    {
      var low := if i + 1 < |indices| then indices[i + 1] else 0;
      if i + 1 < |indices| { assert indices[i..][2..] == indices[i + 2..]; }
      packed := packed + [PackPair(indices[i], low)];
      i := i + 2;
    }
  }

  lemma UnpackStep(packed: seq<Byte>, n: int)
    requires packed != [] && n > 0
    ensures UnpackNibbles(packed, n) ==
            [High(packed[0])] + (if n > 1 then [Low(packed[0])] else []) + UnpackNibbles(packed[1..], n - 2)
  {
    hide High, Low;
  }

  /** One turn of the unpacking loop, as long as indices are missing. */
  lemma UnpackTurn(packed: seq<Byte>, i: nat, indices: seq<int>, n: nat)
    requires i < |packed| && |indices| < n
    ensures var more := indices + [High(packed[i])] + if |indices| + 1 < n then [Low(packed[i])] else [];
      indices + UnpackNibbles(packed[i..], n - |indices|) == more + UnpackNibbles(packed[i + 1..], n - |more|)
  {
    hide High, Low, UnpackNibbles, AllWithin;
    var m := n - |indices|;
    UnpackStep(packed[i..], m);
    assert packed[i..][1..] == packed[i + 1..];
    NothingToUnpack(packed[i + 1..], m - 2);
    NothingToUnpack(packed[i + 1..], m - 1);
  }

  /** The source goes on appending high halves and cuts the list at the end. */
  method Unpack4Bit(packed: seq<Byte>, n: nat) returns (indices: seq<int>)
    ensures indices == UnpackNibbles(packed, n)
  {
    hide High, Low, UnpackNibbles, AllWithin;
    indices := [];
    var i := 0;
    NothingToUnpack(packed, n);
    while i < |packed|
      invariant 0 <= i <= |packed|
      invariant |indices| < n ==> UnpackNibbles(packed, n) == indices + UnpackNibbles(packed[i..], n - |indices|)
      invariant |indices| >= n ==> UnpackNibbles(packed, n) == indices[..n]
    {
      if |indices| < n {
        UnpackTurn(packed, i, indices, n);
        NothingToUnpack(packed[i + 1..], 0);
      }
      indices := indices + [High(packed[i])];
      if |indices| < n {
        indices := indices + [Low(packed[i])];
      }
      i := i + 1;
    }
    NothingToUnpack(packed[i..], n - |indices|);
    if |indices| > n {
      indices := indices[..n];
    }
  }

  lemma NothingToUnpack(packed: seq<Byte>, n: int)
    ensures n <= 0 || packed == [] ==> UnpackNibbles(packed, n) == []
    ensures packed == packed[0..]
  {
  }

  /** One turn of the compression loop. */
  lemma EncodeTurn(groups: seq<seq<Byte>>, i: nat, out: seq<Byte>, w: BitWidth, rnd: Rounder)
    requires i < |groups| && forall k :: 0 <= k < |groups| ==> groups[k] != []
    ensures var lo, hi := Least(groups[i]), Greatest(groups[i]);
      out + EncodeGroups(groups[i..], w, rnd) ==
      out + [lo, hi] + EncodeBody(groups[i], w, rnd) + EncodeGroups(groups[i + 1..], w, rnd)
  {
    hide EncodeBody, EncodeGroups, Least, Greatest, AllWithin;
    assert groups[i..] == [groups[i]] + groups[i + 1..];
    EncodeCons(groups[i], groups[i + 1..], w, rnd);
  }

  /** The body of a group, by its bit width. */
  method EncodeIndices(group: seq<Byte>, w: BitWidth, rnd: Rounder) returns (body: seq<Byte>)
    requires group != []
    ensures body == EncodeBody(group, w, rnd)
  {
    hide Least, Greatest, PackNibbles, Index;
    IndicesInRange(group, w, rnd);
    var indices := Indices(group, Least(group), Greatest(group), w, rnd);
    if w.Four? {
      body := Pack4Bit(indices);
    } else {
      body := AsBytes(indices);
    }
  }

  method Compress(data: seq<Byte>, g: nat, w: BitWidth, rnd: Rounder) returns (r: Result<seq<Byte>, CodecError>)
    requires g >= 2
    ensures r == Compressed(data, g, w, rnd)
  {
    hide Least, Greatest, SplitGroups, EncodeGroups, EncodeBody, PackU32, AllWithin;
    if data == [] {
      return Success([]);
    }
    var groups := SplitGroups(data, g);
    if g >= 0x1_0000_0000 || |groups| >= 0x1_0000_0000 {
      return Failure(StructError);
    }
    var out := PackU32(g) + PackU32(|groups|);
    ghost var header := out;
    var i := 0;
    assert groups[0..] == groups;
    while i < |groups|
      invariant 0 <= i <= |groups|
      invariant header + EncodeGroups(groups, w, rnd) == out + EncodeGroups(groups[i..], w, rnd)
    {
      EncodeTurn(groups, i, out, w, rnd);
      var body := EncodeIndices(groups[i], w, rnd);
      out := out + [Least(groups[i]), Greatest(groups[i])] + body;
      i := i + 1;
    }
    NoGroups(g, w, rnd);
    assert groups[i..] == [] && out + [] == out;
    r := Success(out);
  }

  function Prepend(out: seq<Byte>, r: Result<seq<Byte>, CodecError>): Result<seq<Byte>, CodecError> {
    match r
    case Success(tail) => Success(out + tail)
    case Failure(error) => Failure(error)
  }

  lemma PrependTwice(a: seq<Byte>, b: seq<Byte>, r: Result<seq<Byte>, CodecError>)
    ensures Prepend(a, Prepend(b, r)) == Prepend(a + b, r)
  {
    if r.Success? { assert a + (b + r.value) == (a + b) + r.value; }
  }

  lemma PrependNothing(r: Result<seq<Byte>, CodecError>)
    ensures Prepend([], r) == r && (r.Success? ==> Prepend(r.value, Success([])) == r)
  {
    if r.Success? { assert [] + r.value == r.value && r.value + [] == r.value; }
  }

  lemma PrependFailure(out: seq<Byte>)
    ensures Prepend(out, Failure(StructError)) == Failure(StructError)
  {
  }

  lemma FirstDecoded(b: seq<Byte>, n: nat, g: nat, w: BitWidth, rnd: Rounder)
    requires n > 0 && |b| >= 2
    ensures var first := RestoreAll(DecodeBody(Take(b[2..], BodyLength(g, w)), g, w), b[0], b[1], w, rnd);
      DecodeGroups(b, n, g, w, rnd) == Prepend(first, DecodeGroups(Drop(b[2..], BodyLength(g, w)), n - 1, g, w, rnd))
  {
    hide RestoreAll, DecodeBody, BodyLength, AllWithin;
  }

  lemma NothingToDecode(b: seq<Byte>, n: nat, g: nat, w: BitWidth, rnd: Rounder)
    requires n > 0 && |b| < 2
    ensures DecodeGroups(b, n, g, w, rnd) == Failure(StructError)
  {
  }

  lemma NoneDecoded(b: seq<Byte>, g: nat, w: BitWidth, rnd: Rounder)
    ensures DecodeGroups(b, 0, g, w, rnd) == Success([])
  {
  }

  lemma DropTwice(b: seq<Byte>, k: nat, n: nat)
    requires k <= |b|
    ensures Drop(b[k..], n) == Drop(b, k + n)
  {
  }

  /** What one turn of the decoder does, at any offset. */
  lemma DecodeTurn(data: seq<Byte>, offset: nat, out: seq<Byte>, n: nat, g: nat, w: BitWidth, rnd: Rounder)
    requires n > 0 && offset + 2 <= |data|
    ensures var indices := DecodeBody(Take(data[offset + 2..], BodyLength(g, w)), g, w);
      var restored := RestoreAll(indices, data[offset], data[offset + 1], w, rnd);
      Prepend(out, DecodeGroups(Drop(data, offset), n, g, w, rnd)) ==
      Prepend(out + restored, DecodeGroups(Drop(data, offset + 2 + BodyLength(g, w)), n - 1, g, w, rnd))
  {
    hide RestoreAll, BodyLength, AllWithin, Prepend, DecodeGroups, Take, DecodeBody;
    var b := Drop(data, offset);
    assert b[2..] == data[offset + 2..];
    var indices := DecodeBody(Take(b[2..], BodyLength(g, w)), g, w);
    var restored := RestoreAll(indices, b[0], b[1], w, rnd);
    FirstDecoded(b, n, g, w, rnd);
    DropTwice(data, offset + 2, BodyLength(g, w));
    PrependTwice(out, restored, DecodeGroups(Drop(b[2..], BodyLength(g, w)), n - 1, g, w, rnd));
  }

  lemma FourBitBody(body: seq<Byte>, g: nat)
    ensures DecodeBody(body, g, Four) == UnpackNibbles(body, g)
  {
    hide UnpackNibbles;
  }

  lemma DropLength(b: seq<Byte>, n: nat)
    ensures |Drop(b, n)| == (if n <= |b| then |b| - n else 0) && (n <= |b| ==> Drop(b, n) == b[n..])
  {
  }

  method Decompress(data: seq<Byte>, w: BitWidth, rnd: Rounder) returns (r: Result<seq<Byte>, CodecError>)
    ensures r == Decompressed(data, w, rnd)
  {
    hide UnpackU32, RestoreAll, UnpackNibbles, BodyLength, AllWithin, Prepend, DecodeGroups, Take, DecodeBody, Drop;
    if data == [] {
      return Success([]);
    }
    if |data| < 8 {
      return Failure(StructError);
    }
    var g, n := UnpackU32(data[..4]), UnpackU32(data[4..8]);
    var offset := 8;
    var out: seq<Byte> := [];
    var i := 0;
    DropLength(data, 8);
    PrependNothing(DecodeGroups(data[8..], n, g, w, rnd));
    while i < n
      invariant 0 <= i <= n && 8 <= offset
      invariant DecodeGroups(data[8..], n, g, w, rnd) ==
          Prepend(out, DecodeGroups(Drop(data, offset), n - i, g, w, rnd))
    {
      DropLength(data, offset);
      if |Drop(data, offset)| < 2 {
        PrependFailure(out);
        NothingToDecode(Drop(data, offset), n - i, g, w, rnd);
        return Failure(StructError);
      }
      DecodeTurn(data, offset, out, n - i, g, w, rnd);
      var lo, hi := data[offset], data[offset + 1];
      offset := offset + 2;
      var body := Take(data[offset..], BodyLength(g, w));
      var indices: seq<int>;
      if w.Four? {
        indices := Unpack4Bit(body, g);
      } else {
        indices := DecodeBody(body, g, w);
      }
      FourBitBody(body, g);
      offset := offset + BodyLength(g, w);
      out := out + RestoreAll(indices, lo, hi, w, rnd);
      i := i + 1;
    }
    NoneDecoded(Drop(data, offset), g, w, rnd);
    PrependNothing(Success(out));
    r := Success(out);
  }
}
