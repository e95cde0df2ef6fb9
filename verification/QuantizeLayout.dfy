/** The bytes that compress writes and how decompress reads them, position by position. */
module QuantizeLayout {
  import opened Results
  import opened QuantizeArithmetic
  import opened Quantize

  /** Four bytes, the most significant one first. */
  predicate BigEndian(b: seq<Byte>, n: int) {
    |b| == 4 && n == ((b[0] as int * 256 + b[1] as int) * 256 + b[2] as int) * 256 + b[3] as int
  }

  lemma ReadWord(b: seq<Byte>)
    requires |b| == 4
    ensures BigEndian(b, UnpackU32(b))
  {
  }

  lemma HeaderWord(n: int, b: seq<Byte>)
    ensures 0 <= n < 0x1_0000_0000 ==> BigEndian(PackU32(n), n)
    ensures |b| == 4 ==> BigEndian(b, UnpackU32(b))
  {
    hide PackU32, UnpackU32, BigEndian;
    if 0 <= n < 0x1_0000_0000 {
      UnpackPackU32(n);
      ReadWord(PackU32(n));
    }
    if |b| == 4 { ReadWord(b); }
  }

  /** The bytes that the indices of n bytes take: two in a byte, or one. */
  function BodySize(n: nat, w: BitWidth): nat {
    match w
    case Four => n / 2 + n % 2
    case Eight => n
  }

  /** The i-th index behind an offset: the high half of a byte comes before the low half. */
  function StoredIndex(b: seq<Byte>, offset: nat, i: nat, w: BitWidth): int
    requires offset + BodySize(i + 1, w) <= |b|
  {
    match w
    case Four => if i % 2 == 0 then b[offset + i / 2] / 16 else b[offset + i / 2] % 16
    case Eight => b[offset + i]
  }

  /** q is round((x - lo) / (hi - lo) * m), and 0 if the range is empty. */
  predicate Quantized(q: int, x: int, lo: int, hi: int, w: BitWidth) {
    var m := match w case Four => 15 case Eight => 255;
    0 <= q <= m && if hi == lo then q == 0 else 2 * Abs(q * (hi - lo) - (x - lo) * m) <= hi - lo
  }

  /** One group at an offset: its minimum, its maximum, and an index for each byte. */
  ghost predicate GroupAt(b: seq<Byte>, offset: nat, group: seq<Byte>, w: BitWidth) {
    && offset + 2 + BodySize(|group|, w) <= |b|
    && b[offset] in group && b[offset + 1] in group
    && (forall i :: 0 <= i < |group| ==> b[offset] <= group[i] <= b[offset + 1])
    && (forall i :: 0 <= i < |group| ==>
          Quantized(StoredIndex(b, offset + 2, i, w), group[i], b[offset], b[offset + 1], w))
    && (w.Four? && |group| % 2 == 1 ==> b[offset + 2 + |group| / 2] % 16 == 0)
  }

  /** The groups of d follow each other and end where the bytes end. */
  ghost predicate GroupsAt(b: seq<Byte>, offset: nat, d: seq<Byte>, g: nat, w: BitWidth)
    requires g > 0
    decreases |d|
  {
    if |d| <= g then GroupAt(b, offset, d, w) && |b| == offset + 2 + BodySize(|d|, w)
    else GroupAt(b, offset, d[..g], w) && GroupsAt(b, offset + 2 + BodySize(g, w), d[g..], g, w)
  }

  // ----- what compress writes -----

  lemma {:induction false} PackedAt(indices: seq<int>, k: nat)
    requires AllWithin(indices, 15) && k < |PackNibbles(indices)|
    ensures 2 * k < |indices|
    ensures PackNibbles(indices)[k] ==
            indices[2 * k] * 16 + if 2 * k + 1 < |indices| then indices[2 * k + 1] else 0
    decreases k
  {
    if k > 0 {
      var later := indices[2..];
      PackedAt(later, k - 1);
      assert 2 * (k - 1) + 2 == 2 * k;
      assert later[2 * (k - 1)] == indices[2 * k];
    }
  }

  /** The body of a group holds its indices. */
  lemma BodyHolds(group: seq<Byte>, w: BitWidth, rnd: Rounder, i: nat)
    requires i < |group|
    ensures |EncodeBody(group, w, rnd)| == BodySize(|group|, w) && BodySize(i + 1, w) <= BodySize(|group|, w)
    ensures StoredIndex(EncodeBody(group, w, rnd), 0, i, w) ==
            Index(group[i] - Least(group), Greatest(group) - Least(group), w, rnd)
    ensures w.Four? && |group| % 2 == 1 ==> EncodeBody(group, w, rnd)[|group| / 2] % 16 == 0
  {
    hide Least, Greatest, Index, PackNibbles;
    IndicesInRange(group, w, rnd);
    var indices := Indices(group, Least(group), Greatest(group), w, rnd);
    if w.Four? {
      PackedAt(indices, i / 2);
      if |group| % 2 == 1 { PackedAt(indices, |group| / 2); }
    }
  }

  lemma IndexQuantized(x: Byte, lo: Byte, hi: Byte, w: BitWidth, rnd: Rounder)
    requires lo <= x <= hi
    ensures Quantized(Index(x - lo, hi - lo, w, rnd), x, lo, hi, w)
  {
    IndexInRange(x - lo, hi - lo, w, rnd);
    if hi > lo { NearestAt(rnd, x - lo, hi - lo, MaxIndex(w)); }
  }

  /** What stands at an offset does not depend on what comes before or behind. */
  lemma StoredIndexShifts(pre: seq<Byte>, body: seq<Byte>, post: seq<Byte>, i: nat, w: BitWidth)
    requires BodySize(i + 1, w) <= |body|
    ensures StoredIndex(pre + body + post, |pre|, i, w) == StoredIndex(body, 0, i, w)
  {
    var k := if w.Four? then i / 2 else i;
    assert (pre + body + post)[|pre| + k] == body[k];
  }

  /** The indices of a group behind its bounds. */
  lemma WrittenIndices(head: seq<Byte>, group: seq<Byte>, post: seq<Byte>, w: BitWidth, rnd: Rounder, i: nat)
    requires i < |group|
    ensures var b, lo, hi := head + EncodeBody(group, w, rnd) + post, Least(group), Greatest(group);
      && |head| + BodySize(i + 1, w) <= |b|
      && Quantized(StoredIndex(b, |head|, i, w), group[i], lo, hi, w)
  {
    hide EncodeBody, Index, Quantized, StoredIndex, Least, Greatest, BodySize;
    BodyHolds(group, w, rnd, i);
    StoredIndexShifts(head, EncodeBody(group, w, rnd), post, i, w);
    IndexQuantized(group[i], Least(group), Greatest(group), w, rnd);
  }

  lemma WrittenPadding(head: seq<Byte>, group: seq<Byte>, post: seq<Byte>, w: BitWidth, rnd: Rounder)
    requires group != []
    ensures |EncodeBody(group, w, rnd)| == BodySize(|group|, w)
    ensures w.Four? && |group| % 2 == 1 ==>
              (head + EncodeBody(group, w, rnd) + post)[|head| + |group| / 2] % 16 == 0
  {
    hide EncodeBody, Index, StoredIndex, Least, Greatest;
    BodyHolds(group, w, rnd, 0);
    var body := EncodeBody(group, w, rnd);
    if w.Four? && |group| % 2 == 1 { assert (head + body + post)[|head| + |group| / 2] == body[|group| / 2]; }
  }

  lemma WrittenGroup(pre: seq<Byte>, group: seq<Byte>, post: seq<Byte>, w: BitWidth, rnd: Rounder)
    requires group != []
    ensures GroupAt(pre + [Least(group), Greatest(group)] + EncodeBody(group, w, rnd) + post, |pre|, group, w)
    ensures |EncodeBody(group, w, rnd)| == BodySize(|group|, w)
  {
    hide EncodeBody, Index, Quantized, StoredIndex, Least, Greatest, BodySize, AllWithin;
    var head := pre + [Least(group), Greatest(group)];
    WrittenPadding(head, group, post, w, rnd);
    forall i | 0 <= i < |group|
      ensures var b := head + EncodeBody(group, w, rnd) + post;
        && |head| + BodySize(i + 1, w) <= |b|
        && Quantized(StoredIndex(b, |head|, i, w), group[i], Least(group), Greatest(group), w)
    {
      WrittenIndices(head, group, post, w, rnd, i);
    }
    Bounds(pre, group, EncodeBody(group, w, rnd) + post);
    assert head + (EncodeBody(group, w, rnd) + post) == head + EncodeBody(group, w, rnd) + post;
  }

  lemma Bounds(pre: seq<Byte>, group: seq<Byte>, post: seq<Byte>)
    requires group != []
    ensures var b := pre + [Least(group), Greatest(group)] + post;
      && b[|pre|] == Least(group) && b[|pre| + 1] == Greatest(group)
      && b[|pre|] in group && b[|pre| + 1] in group
      && forall i :: 0 <= i < |group| ==> b[|pre|] <= group[i] <= b[|pre| + 1]
  {
  }

  lemma {:induction false} WrittenGroups(pre: seq<Byte>, d: seq<Byte>, g: nat, w: BitWidth, rnd: Rounder)
    requires g > 0 && d != []
    ensures GroupsAt(pre + EncodeGroups(SplitGroups(d, g), w, rnd), |pre|, d, g, w)
    decreases |d|
  {
    hide EncodeBody, EncodeGroups, Least, Greatest, GroupAt;
    if |d| <= g {
      EncodeCons(d, [], w, rnd);
      NoGroups(g, w, rnd);
      WrittenGroup(pre, d, [], w, rnd);
      assert [d] + [] == [d];
      var lo, hi, body := Least(d), Greatest(d), EncodeBody(d, w, rnd);
      assert pre + ([lo, hi] + body + []) == pre + [lo, hi] + body + [];
    } else {
      var group, later := d[..g], EncodeGroups(SplitGroups(d[g..], g), w, rnd);
      EncodeCons(group, SplitGroups(d[g..], g), w, rnd);
      WrittenGroup(pre, group, later, w, rnd);
      var lo, hi, body := Least(group), Greatest(group), EncodeBody(group, w, rnd);
      assert pre + ([lo, hi] + body + later) == pre + [lo, hi] + body + later;
      WrittenGroups(pre + [lo, hi] + body, d[g..], g, w, rnd);
    }
  }

  lemma {:induction false} GroupCount(d: seq<Byte>, g: nat)
    requires g > 0 && d != []
    ensures var n := |SplitGroups(d, g)|; n >= 1 && (n - 1) * g < |d| <= n * g
    decreases |d|
  {
    if |d| > g {
      GroupCount(d[g..], g);
      var n := |SplitGroups(d[g..], g)|;
      assert n * g == (n - 1) * g + g && (n + 1) * g == n * g + g;
    }
  }

  /** The output of compress: the group size, the number of groups, and the groups in order. */
  lemma CompressedLayout(d: seq<Byte>, g: nat, w: BitWidth, rnd: Rounder)
    requires g >= 2 && d != [] && Compressed(d, g, w, rnd).Success?
    ensures var b := Compressed(d, g, w, rnd).value;
      && |b| >= 8 && BigEndian(b[..4], g)
      && (exists n: int :: BigEndian(b[4..8], n) && (n - 1) * g < |d| <= n * g)
      && GroupsAt(b, 8, d, g, w)
  {
    hide EncodeGroups, SplitGroups, PackU32, BigEndian, GroupsAt;
    var n, b := |SplitGroups(d, g)|, Compressed(d, g, w, rnd).value;
    var header := PackU32(g) + PackU32(n);
    HeaderWord(g, []);
    HeaderWord(n, []);
    GroupCount(d, g);
    assert b[..4] == PackU32(g) && b[4..8] == PackU32(n);
    WrittenGroups(header, d, g, w, rnd);
  }

  // ----- what decompress reads -----

  /** x is lo + round(q / m * (hi - lo)). */
  predicate Dequantized(x: int, q: int, lo: int, hi: int, w: BitWidth) {
    var m := match w case Four => 15 case Eight => 255;
    2 * Abs((x - lo) * m - q * (hi - lo)) <= m
  }

  /** The number of indices that a body of `size` bytes yields, cut to the group size for nibbles. */
  function Yield(size: nat, g: nat, w: BitWidth): nat {
    match w
    case Four => if 2 * size <= g then 2 * size else g
    case Eight => size
  }

  lemma {:induction false} UnpackedAt(packed: seq<Byte>, n: nat, i: nat)
    requires i < Yield(|packed|, n, Four)
    ensures |UnpackNibbles(packed, n)| == Yield(|packed|, n, Four)
    ensures UnpackNibbles(packed, n)[i] == StoredIndex(packed, 0, i, Four)
    decreases |packed|
  {
    hide AllWithin;
    UnpackedLength(packed, n);
    if i >= 2 { UnpackedAt(packed[1..], n - 2, i - 2); }
  }

  lemma {:induction false} UnpackedLength(packed: seq<Byte>, n: nat)
    ensures |UnpackNibbles(packed, n)| == Yield(|packed|, n, Four)
    decreases |packed|
  {
    hide AllWithin;
    if packed != [] && n >= 2 { UnpackedLength(packed[1..], n - 2); }
  }

  lemma RestoredAt(indices: seq<int>, k: nat, lo: Byte, hi: Byte, w: BitWidth, rnd: Rounder)
    requires AllWithin(indices, MaxIndex(w)) && k < |indices|
    ensures Dequantized(RestoreAll(indices, lo, hi, w, rnd)[k], indices[k], lo, hi, w)
  {
    hide RestoreAll;
    RestoreAllAt(indices, k, lo, hi, w, rnd);
    NearestAt(rnd, indices[k], MaxIndex(w), hi - lo);
  }

  /** The i-th byte of a group comes from the two bounds and the i-th index behind them. */
  ghost predicate ReadAt(b: seq<Byte>, size: nat, w: BitWidth, x: Byte, i: nat)
    requires 2 + size <= |b|
  {
    BodySize(i + 1, w) <= size && Dequantized(x, StoredIndex(b, 2, i, w), b[0], b[1], w)
  }

  /** On any bytes, the first group is read from its two bounds and as much of its body as there is. */
  ghost predicate ReadsGroup(b: seq<Byte>, g: nat, w: BitWidth, first: seq<Byte>, size: nat)
    requires 2 + size <= |b|
  {
    && size == (if BodySize(g, w) <= |b| - 2 then BodySize(g, w) else |b| - 2)
    && |first| == Yield(size, g, w)
    && forall i :: 0 <= i < |first| ==> ReadAt(b, size, w, first[i], i)
  }

  lemma DecodedBodyAt(body: seq<Byte>, g: nat, w: BitWidth, i: nat)
    requires i < Yield(|body|, g, w)
    ensures |DecodeBody(body, g, w)| == Yield(|body|, g, w)
    ensures BodySize(i + 1, w) <= |body| && DecodeBody(body, g, w)[i] == StoredIndex(body, 0, i, w)
  {
    hide UnpackNibbles;
    if w.Four? { UnpackedAt(body, g, i); }
  }

  lemma DecodedLength(body: seq<Byte>, g: nat, w: BitWidth)
    ensures |DecodeBody(body, g, w)| == Yield(|body|, g, w)
  {
    hide UnpackNibbles;
    UnpackedLength(body, g);
  }

  lemma ReadByte(b: seq<Byte>, body: seq<Byte>, g: nat, w: BitWidth, rnd: Rounder, i: nat)
    requires |b| >= 2 + |body| && body == b[2..2 + |body|] && i < Yield(|body|, g, w)
    ensures |RestoreAll(DecodeBody(body, g, w), b[0], b[1], w, rnd)| == Yield(|body|, g, w)
    ensures ReadAt(b, |body|, w, RestoreAll(DecodeBody(body, g, w), b[0], b[1], w, rnd)[i], i)
  {
    hide DecodeBody, RestoreAll, StoredIndex, Dequantized;
    DecodedBodyAt(body, g, w, i);
    RestoredAt(DecodeBody(body, g, w), i, b[0], b[1], w, rnd);
    StoredIndexShifts(b[..2], body, b[2 + |body|..], i, w);
    assert b[..2] + body + b[2 + |body|..] == b;
  }

  lemma ReadGroup(b: seq<Byte>, g: nat, w: BitWidth, rnd: Rounder)
    requires |b| >= 2
    ensures var body := Take(b[2..], BodyLength(g, w));
      && |body| <= |b| - 2
      && ReadsGroup(b, g, w, RestoreAll(DecodeBody(body, g, w), b[0], b[1], w, rnd), |body|)
  {
    hide DecodeBody, RestoreAll, ReadAt;
    var body := Take(b[2..], BodyLength(g, w));
    DecodedLength(body, g, w);
    forall i: nat | i < Yield(|body|, g, w)
      ensures ReadAt(b, |body|, w, RestoreAll(DecodeBody(body, g, w), b[0], b[1], w, rnd)[i], i)
    {
      ReadByte(b, body, g, w, rnd, i);
    }
  }

  /** n groups in a row are read so, and nothing else comes out. */
  ghost predicate Reads(b: seq<Byte>, n: nat, g: nat, w: BitWidth, out: seq<Byte>)
    decreases n
  {
    if n == 0 then out == []
    else
      |b| >= 2 && exists k: nat, size: nat | k <= |out| && size <= |b| - 2 ::
        ReadsGroup(b, g, w, out[..k], size) && Reads(b[2 + size..], n - 1, g, w, out[k..])
  }

  lemma ReadsFirst(
    b: seq<Byte>, n: nat, g: nat, w: BitWidth, first: seq<Byte>, size: nat, rest: seq<Byte>)
    requires n > 0 && 2 + size <= |b| && ReadsGroup(b, g, w, first, size) && Reads(b[2 + size..], n - 1, g, w, rest)
    ensures Reads(b, n, g, w, first + rest)
  {
    hide ReadsGroup;
    var out := first + rest;
    assert out[..|first|] == first && out[|first|..] == rest;
  }

  lemma {:induction false} DecodedReads(b: seq<Byte>, n: nat, g: nat, w: BitWidth, rnd: Rounder)
    requires DecodeGroups(b, n, g, w, rnd).Success?
    ensures Reads(b, n, g, w, DecodeGroups(b, n, g, w, rnd).value)
    decreases n
  {
    hide DecodeBody, RestoreAll, ReadsGroup, BodyLength, Reads;
    if n == 0 {
      NothingRead(b, g, w);
    } else {
      var body := Take(b[2..], BodyLength(g, w));
      var first := RestoreAll(DecodeBody(body, g, w), b[0], b[1], w, rnd);
      var later := Drop(b[2..], BodyLength(g, w));
      ReadGroup(b, g, w, rnd);
      DecodedReads(later, n - 1, g, w, rnd);
      assert b[2 + |body|..] == later;
      ReadsFirst(b, n, g, w, first, |body|, DecodeGroups(later, n - 1, g, w, rnd).value);
    }
  }

  lemma NothingRead(b: seq<Byte>, g: nat, w: BitWidth)
    ensures Reads(b, 0, g, w, [])
  {
  }

  /** decompress reads the group size and the number of groups from the header, and then the groups. */
  lemma DecompressedLayout(b: seq<Byte>, w: BitWidth, rnd: Rounder)
    requires b != [] && Decompressed(b, w, rnd).Success?
    ensures |b| >= 8
    ensures exists g: nat, n: nat :: BigEndian(b[..4], g) && BigEndian(b[4..8], n)
              && Reads(b[8..], n, g, w, Decompressed(b, w, rnd).value)
  {
    hide DecodeGroups, UnpackU32, BigEndian, Reads;
    HeaderWord(0, b[..4]);
    HeaderWord(0, b[4..8]);
    DecodedReads(b[8..], UnpackU32(b[4..8]), UnpackU32(b[..4]), w, rnd);
  }
}
