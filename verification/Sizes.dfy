// Rounding a size in bytes to a whole number of one of seven binary units. Dividing a
// float64 by 1024 is exact, so real arithmetic is exact for every size a float64 holds.
module Sizes {
  import opened Base

  const UNITS := "BKMGTPE"

  function Power1024(u: nat): (p: int)
    ensures p >= 1
  {
    if u == 0 then 1 else 1024 * Power1024(u - 1)
  }

  /** Go's conversion to an integer truncates toward zero. */
  function Truncate(b: real): int {
    if b < 0.0 then -((-b).Floor) else b.Floor
  }

  function PrintInt(n: int): string {
    if n < 0 then "-" + PrintNat(-n) else PrintNat(n)
  }

  /** Number of divisions by 1024 that the conversion makes, starting from unit u. */
  function UnitFrom(b: real, u: nat): (r: nat)
    requires u <= 6
    ensures u <= r <= 6
    decreases 6 - u
  {
    if b >= 1024.0 && u < 6 then UnitFrom(b / 1024.0, u + 1) else u
  }

  function UnitOf(b: real): nat { UnitFrom(b, 0) }

  function AmountOf(b: real): int { Truncate(b / Power1024(UnitOf(b)) as real) }

  function SizeText(b: real): string { PrintInt(AmountOf(b)) + [UNITS[UnitOf(b)]] }

  /** The quota in bytes that the text asks for. */
  function QuotaBytes(b: real): int { AmountOf(b) * Power1024(UnitOf(b)) }

  method ConvertBytesToString(size: real) returns (s: string)
    ensures s == SizeText(size)
  {
    var bytes, u := size, 0;
    while bytes >= 1024.0 && u < 6
      invariant u <= 6
      invariant UnitFrom(bytes, u) == UnitOf(size)
      invariant bytes == size / Power1024(u) as real
    {
      DivideOnce(size, u);
      bytes, u := bytes / 1024.0, u + 1;
    }
    s := PrintInt(Truncate(bytes)) + [UNITS[u]];
  }

  /** Amount and unit can be read back from the text. */
  lemma TextTellsQuota(b: real, max: nat)
    requires b >= 0.0 && AmountOf(b) <= max
    ensures var text := SizeText(b);
      && text != "" && text[|text| - 1] == UNITS[UnitOf(b)]
      && ParseUint(text[..|text| - 1], max) == Parsed(AmountOf(b), true)
  {
    RoundsDown(b);
    ParsePrinted(AmountOf(b), max);
    var digits := PrintNat(AmountOf(b));
    assert SizeText(b) == digits + [UNITS[UnitOf(b)]];
    assert SizeText(b)[..|SizeText(b)| - 1] == digits;
  }

  lemma DivideOnce(b: real, u: nat)
    ensures b / Power1024(u) as real / 1024.0 == b / Power1024(u + 1) as real
  {
    var p := Power1024(u) as real;
    assert Power1024(u + 1) as real == 1024.0 * p;
    DivideTwice(b, p);
  }

  lemma DivideTwice(b: real, p: real)
    requires p > 0.0
    ensures b / p / 1024.0 == b / (1024.0 * p)
  {
    var q := b / p;
    assert q * p == b;
    assert q / 1024.0 * (1024.0 * p) == b;
  }

  /** The loop stops at the first unit in which the size is below 1024, or at E. */
  lemma {:induction false} UnitFromBounds(b: real, u: nat)
    requires u <= 6 && b >= 0.0
    requires u > 0 ==> b >= 1.0
    ensures var r := UnitFrom(b, u);
      && (r > 0 ==> b / Power1024(r - u) as real >= 1.0)
      && (r < 6 ==> b / Power1024(r - u) as real < 1024.0)
    decreases 6 - u
  {
    var r := UnitFrom(b, u);
    if b >= 1024.0 && u < 6 {
      UnitFromBounds(b / 1024.0, u + 1);
      var p := Power1024(r - u - 1) as real;
      DivideTwice(b, p);
      SwapDivisors(b, p);
      assert Power1024(r - u) as real == 1024.0 * p;
    }
  }

  lemma SwapDivisors(b: real, p: real)
    requires p > 0.0
    ensures b / 1024.0 / p == b / (1024.0 * p)
  {
    var q := b / 1024.0;
    assert q / p * (1024.0 * p) == b by {
      assert q / p * p == q;
    }
  }

  /** v units of 1024^u with v * 1024^u <= b < (v + 1) * 1024^u, and v < 1024 unless the unit is E. */
  lemma RoundsDown(b: real)
    requires b >= 0.0
    ensures var v, u := AmountOf(b), UnitOf(b);
      && QuotaBytes(b) as real <= b < ((v + 1) * Power1024(u)) as real
      && 0 <= v && (u < 6 ==> v < 1024) && (u > 0 ==> v >= 1)
  {
    UnitFromBounds(b, 0);
    FloorTimes(b, Power1024(UnitOf(b)));
  }

  lemma FloorTimes(b: real, n: int)
    requires n >= 1
    ensures var v := (b / n as real).Floor;
      (v * n) as real <= b < ((v + 1) * n) as real
  {
    var q := b / n as real;
    assert q * n as real == b;
    ScaleInt(q.Floor, q, n);
    ScaleIntStrict(q, q.Floor + 1, n);
  }

  lemma ScaleInt(v: int, q: real, n: int)
    requires v as real <= q && n >= 1
    ensures (v * n) as real <= q * n as real
  {
    ScaleOrder(v as real, q, n as real);
    CastProduct(v, n);
  }

  lemma ScaleIntStrict(q: real, w: int, n: int)
    requires q < w as real && n >= 1
    ensures q * n as real < (w * n) as real
  {
    ScaleStrict(q, w as real, n as real);
    CastProduct(w, n);
  }

  lemma CastProduct(v: int, n: int)
    ensures (v * n) as real == v as real * n as real
  {
  }

  lemma ScaleOrder(x: real, y: real, p: real)
    requires x <= y && p > 0.0
    ensures x * p <= y * p
  {
  }

  lemma ScaleStrict(x: real, y: real, p: real)
    requires x < y && p > 0.0
    ensures x * p < y * p
  {
  }

  /** The quota never exceeds the request and is more than half of it. */
  lemma MoreThanHalf(b: real)
    requires b >= 1.0
    ensures QuotaBytes(b) as real <= b < 2.0 * QuotaBytes(b) as real
  {
    RoundsDown(b);
    var v, u := AmountOf(b), UnitOf(b);
    assert Power1024(0) == 1;
    DoubleCovers(v, Power1024(u));
  }

  lemma DoubleCovers(v: int, p: int)
    requires v >= 1 && p >= 1
    ensures (v + 1) * p <= 2 * (v * p)
  {
  }

  lemma {:induction false} PowerGrows(i: nat, j: nat)
    requires i <= j
    ensures Power1024(i) <= Power1024(j)
    decreases j
  {
    if i < j {
      PowerGrows(i, j - 1);
    }
  }

  lemma {:induction false} UnitGrows(a: real, b: real, u: nat)
    requires a <= b && u <= 6
    ensures UnitFrom(a, u) <= UnitFrom(b, u)
    decreases 6 - u
  {
    if a >= 1024.0 && u < 6 {
      UnitGrows(a / 1024.0, b / 1024.0, u + 1);
    }
  }

  lemma FloorGrows(a: real, b: real, p: real)
    requires a <= b && p > 0.0
    ensures (a / p).Floor <= (b / p).Floor
  {
    var x, y := a / p, b / p;
    assert x * p == a && y * p == b;
    QuotientGrows(x, y, p);
  }

  lemma QuotientGrows(x: real, y: real, p: real)
    requires x * p <= y * p && p > 0.0
    ensures x <= y
  {
  }

  lemma ProductGrows(v: int, w: int, p: int)
    requires v <= w && p >= 1
    ensures v * p <= w * p
  {
  }

  /** A larger request never gets a smaller quota, also across a change of unit. */
  lemma Monotone(a: real, b: real)
    requires 0.0 <= a <= b
    ensures QuotaBytes(a) <= QuotaBytes(b)
  {
    RoundsDown(a);
    RoundsDown(b);
    UnitGrows(a, b, 0);
    var v, u, w, t := AmountOf(a), UnitOf(a), AmountOf(b), UnitOf(b);
    if u == t {
      FloorGrows(a, b, Power1024(u) as real);
      ProductGrows(v, w, Power1024(u));
    } else {
      ProductGrows(v, 1024, Power1024(u));
      PowerGrows(u + 1, t);
      ProductGrows(1, w, Power1024(t));
    }
  }

  /** The letter at the end says between which powers of 1024 the request lies. */
  lemma UnitLetter(b: real)
    requires b >= 0.0
    ensures var text := SizeText(b);
      && text != ""
      && var unit := text[|text| - 1];
      && (unit == 'B' <==> b < 1024.0)
      && (unit == 'K' <==> 1024.0 <= b < 1048576.0)
      && (unit == 'M' <==> 1048576.0 <= b < 1073741824.0)
      && (unit == 'G' <==> 1073741824.0 <= b < 1099511627776.0)
      && (unit == 'T' <==> 1099511627776.0 <= b < 1125899906842624.0)
      && (unit == 'P' <==> 1125899906842624.0 <= b < 1152921504606846976.0)
      && (unit == 'E' <==> 1152921504606846976.0 <= b)
  {
    RoundsDown(b);
    assert Power1024(1) == 1024 && Power1024(2) == 1048576 && Power1024(3) == 1073741824;
    assert Power1024(4) == 1099511627776 && Power1024(5) == 1125899906842624;
    assert Power1024(6) == 1152921504606846976;
  }

  /** The conversion makes no text of a negative size smaller than bytes. */
  lemma NegativeInBytes(b: real)
    requires b < 0.0
    ensures SizeText(b) == if b > -1.0 then "0B" else "-" + PrintNat((-b).Floor) + "B"
  {
    assert b / 1.0 == b;
    assert (-b).Floor >= 1 <==> b <= -1.0;
  }
}
