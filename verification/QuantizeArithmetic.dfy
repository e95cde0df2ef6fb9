/** The arithmetic of one quantized byte, and of group lengths.

  Python's round of a float quotient is modelled by any function that returns a nearest integer to the
  exact quotient, ties going either way: with these operands a quotient that is not a tie is at least
  1/510 away from one, far more than a float64 error.
 */
module QuantizeArithmetic {

  datatype BitWidth = Four | Eight

  function Abs(x: int): int {
    if x < 0 then -x else x
  }

  /** q is an integer nearest to a / den * scale. */
  ghost predicate NearestTo(q: int, a: int, den: int, scale: int) {
    den > 0 ==> 2 * Abs(q * den - a * scale) <= den
  }

  ghost predicate Nearest(rnd: (int, int, int) -> int) {
    forall a, den, scale {:trigger NearestTo(rnd(a, den, scale), a, den, scale)} ::
      NearestTo(rnd(a, den, scale), a, den, scale)
  }

  /** rnd(a, den, scale) is round(a / den * scale). */
  type Rounder = rnd: (int, int, int) -> int | Nearest(rnd) ghost witness HalfUp

  /** Such functions exist: round half up. */
  function HalfUp(a: int, den: int, scale: int): (q: int)
    ensures NearestTo(q, a, den, scale)
  {
    if den > 0 then
      var q := (2 * (a * scale) + den) / (2 * den);
      DivisionBound(2 * (a * scale) + den, 2 * den);
      assert q * (2 * den) == 2 * (q * den);
      q
    else 0
  }

  lemma DivisionBound(n: int, k: int)
    requires k > 0
    ensures n - k < (n / k) * k <= n
  {
  }

  function MaxIndex(w: BitWidth): int {
    if w.Four? then 15 else 255
  }

  // ----- arithmetic of one byte -----

  /** a is the distance of a byte from the minimum of its group. */
  function Index(a: int, span: int, w: BitWidth, rnd: Rounder): int {
    if span == 0 then 0 else rnd(a, span, MaxIndex(w))
  }

  function Restore(index: int, span: int, w: BitWidth, rnd: Rounder): int {
    rnd(index, MaxIndex(w), span)
  }

  lemma MulMono(a: int, b: int, k: int)
    requires a <= b && 0 <= k
    ensures a * k <= b * k
  {
  }

  lemma NearestAt(rnd: Rounder, a: int, den: int, scale: int)
    requires den > 0
    ensures 2 * Abs(rnd(a, den, scale) * den - a * scale) <= den
  {
    assert NearestTo(rnd(a, den, scale), a, den, scale);
  }

  lemma IndexInRange(a: int, span: int, w: BitWidth, rnd: Rounder)
    requires 0 <= a <= span < 256
    ensures 0 <= Index(a, span, w, rnd) <= MaxIndex(w)
    ensures a == 0 ==> Index(a, span, w, rnd) == 0
    ensures a == span && span > 0 ==> Index(a, span, w, rnd) == MaxIndex(w)
  {
    if span > 0 {
      var i, m := Index(a, span, w, rnd), MaxIndex(w);
      NearestAt(rnd, a, span, m);
      MulMono(a, span, m);
      if i < 0 { MulMono(i, -1, span); }
      if i > m { MulMono(m + 1, i, span); }
      if a == 0 && i > 0 { MulMono(1, i, span); }
      if a == span && i < m { MulMono(i, m - 1, span); }
    }
  }

  /** r is nearest to p / 15, and to p / 255. */
  lemma RestoreFour(r: int, p: int, span: int)
    requires 2 * Abs(r * 15 - p) <= 15
    ensures 0 <= p <= 15 * span ==> 0 <= r <= span
    ensures 15 * span <= p <= 0 ==> span <= r <= 0
  {
  }

  lemma RestoreEight(r: int, p: int, span: int)
    requires 2 * Abs(r * 255 - p) <= 255
    ensures 0 <= p <= 255 * span ==> 0 <= r <= span
    ensures 255 * span <= p <= 0 ==> span <= r <= 0
  {
  }

  /** A decoded byte lies between the stored minimum and maximum, even if they are swapped. */
  lemma RestoreInRange(index: int, span: int, w: BitWidth, rnd: Rounder)
    requires 0 <= index <= MaxIndex(w)
    ensures var r := Restore(index, span, w, rnd); if span >= 0 then 0 <= r <= span else span <= r <= 0
    ensures index == 0 ==> Restore(index, span, w, rnd) == 0
    ensures index == MaxIndex(w) ==> Restore(index, span, w, rnd) == span
  {
    NearestAt(rnd, index, MaxIndex(w), span);
    if w.Four? {
      RestoreFour(Restore(index, span, w, rnd), index * span, span);
    } else {
      RestoreEight(Restore(index, span, w, rnd), index * span, span);
    }
    if span >= 0 {
      MulMono(0, index, span);
      MulMono(index, MaxIndex(w), span);
    } else {
      MulMono(0, index, -span);
      MulMono(index, MaxIndex(w), -span);
      assert index * (-span) == -(index * span);
      assert MaxIndex(w) * (-span) == -(MaxIndex(w) * span);
    }
  }

  /** r restores the index i of a; p is their common product i * span. */
  lemma RoundTripFour(r: int, i: int, a: int, span: int, p: int)
    requires 0 <= a <= span && 0 < span && (span == 15 ==> p == i * 15)
    requires 2 * Abs(r * 15 - p) <= 15 && 2 * Abs(p - a * 15) <= span
    ensures 30 * Abs(r - a) <= span + 15 && (span <= 15 ==> r == a)
  {
    if span == 15 { assert i == a; }
  }

  lemma RoundTripEight(r: int, i: int, a: int, span: int, p: int)
    requires 0 <= a <= span < 256 && 0 < span && (span == 255 ==> p == i * 255)
    requires 2 * Abs(r * 255 - p) <= 255 && 2 * Abs(p - a * 255) <= span
    ensures r == a
  {
    if span == 255 { assert i == a; }
  }

  /** The error of one byte: none with eight bits; bounded with four, and none in narrow groups. */
  lemma RoundTrip(a: int, span: int, w: BitWidth, rnd: Rounder)
    requires 0 <= a <= span < 256
    ensures var r := Restore(Index(a, span, w, rnd), span, w, rnd);
      30 * Abs(r - a) <= span + 15 && (w.Eight? || span <= 15 ==> r == a)
  {
    var i := Index(a, span, w, rnd);
    if span > 0 {
      NearestAt(rnd, a, span, MaxIndex(w));
      NearestAt(rnd, i, MaxIndex(w), span);
      if w.Four? {
        RoundTripFour(Restore(i, span, w, rnd), i, a, span, i * span);
      } else {
        RoundTripEight(Restore(i, span, w, rnd), i, a, span, i * span);
      }
    } else {
      RestoreInRange(0, 0, w, rnd);
    }
  }

  lemma CloseProducts(p: int, q: int, r: int, span: int)
    requires 15 < span && 2 * Abs(r * 15 - p) <= 15 && 2 * Abs(q - r * 15) <= span
    ensures Abs(q - p) < span
  {
  }

  lemma Distribute(a: int, b: int, k: int)
    ensures (a - b) * k == a * k - b * k
  {
  }

  lemma SmallMultiple(k: int, span: int)
    requires span > 0
    ensures Abs(k * span) < span ==> k == 0
  {
    if k > 0 { MulMono(1, k, span); }
    if k < 0 { MulMono(k, -1, span); }
  }

  /** Quantizing a restored byte gives the same index again. */
  lemma IndexStable(a: int, span: int, w: BitWidth, rnd: Rounder)
    requires 0 <= a <= span < 256
    ensures var i := Index(a, span, w, rnd); Index(Restore(i, span, w, rnd), span, w, rnd) == i
  {
    RoundTrip(a, span, w, rnd);
    if w.Four? && span > 15 {
      var i := Index(a, span, w, rnd);
      var r := Restore(i, span, w, rnd);
      NearestAt(rnd, i, 15, span);
      NearestAt(rnd, r, span, 15);
      var j := Index(r, span, w, rnd);
      CloseProducts(i * span, j * span, r, span);
      Distribute(j, i, span);
      SmallMultiple(j - i, span);
    }
  }

  // ----- group lengths -----

  /** What is left of n bytes after the whole groups. */
  function Rem(n: nat, g: nat): (r: nat)
    requires g > 0
    ensures r < g && r <= n
  {
    if n < g then n else Rem(n - g, g)
  }

  lemma RemStep(n: nat, g: nat)
    requires g > 0
    ensures Rem(n, g) == if n < g then n else Rem(n - g, g)
    ensures Rem(g, g) == 0
  {
  }

  /** It is n less some whole number of groups. */
  lemma {:induction false} RemQuotient(n: nat, g: nat) returns (q: nat)
    requires g > 0
    ensures n == q * g + Rem(n, g)
    decreases n
  {
    if n < g {
      q := 0;
    } else {
      var k := RemQuotient(n - g, g);
      q := k + 1;
      assert q * g == k * g + g;
    }
  }

  /** Two multiples of g that differ by less than g are the same. */
  lemma MultiplesApart(a: int, b: int, g: int)
    requires g > 0 && -g < (a - b) * g < g
    ensures a == b
  {
    if a > b { MulMono(1, a - b, g); }
    if a < b { MulMono(a - b, -1, g); }
  }

  /** Quotient and remainder are unique. */
  lemma RemainderIsMod(n: nat, q: nat, r: nat, g: nat)
    requires g > 0 && n == q * g + r && r < g
    ensures r == n % g
  {
    var d := n / g;
    assert n == d * g + n % g;
    assert (q - d) * g == q * g - d * g;
    MultiplesApart(q, d, g);
  }

  /** It is the length modulo the group size. */
  lemma RemIsMod(n: nat, g: nat)
    requires g > 0
    ensures Rem(n, g) == n % g
  {
    var q := RemQuotient(n, g);
    RemainderIsMod(n, q, Rem(n, g), g);
  }
}
