// Vocabulary shared by every module: optional values, gRPC status codes, Go's
// signed 64-bit arithmetic, and the decimal text that strconv reads and writes.
module Base {

  datatype Option<+T> = None | Some(value: T)

  /** The gRPC status codes the driver answers with; Unknown stands for a plain Go error. */
  datatype Code =
    | InvalidArgument
    | NotFound
    | AlreadyExists
    | OutOfRange
    | ResourceExhausted
    | FailedPrecondition
    | Internal
    | Aborted
    | Unimplemented
    | Unknown

  /** The i-th of a series of outcomes, a success when the series is shorter. */
  predicate Outcome(outcomes: seq<bool>, i: nat) { i < |outcomes| ==> outcomes[i] }

  // ---------- int64 ----------

  const TWO63: int := 0x8000_0000_0000_0000
  const TWO64: int := 0x1_0000_0000_0000_0000

  type int64 = x: int | -TWO63 <= x < TWO63

  /** The int64 that Go keeps when an addition leaves the range. */
  function Wrap64(x: int): (r: int64)
    ensures -TWO63 <= x < TWO63 ==> r == x
  {
    (x + TWO63) % TWO64 - TWO63
  }

  /** Wrapping after every addition or once at the end gives the same int64. */
  lemma WrapAdd(a: int, b: int)
    ensures Wrap64(Wrap64(a) + b) == Wrap64(a + b)
  {
    assert Wrap64(a) == a - (a + TWO63) / TWO64 * TWO64;
  }

  lemma WrapSubtract(a: int, b: int)
    ensures Wrap64(a - Wrap64(b)) == Wrap64(a - b)
  {
    assert Wrap64(b) == b - (b + TWO63) / TWO64 * TWO64;
  }

  /** An int64 that is off is so by a multiple of 2^64. */
  lemma WrapCongruent(x: int)
    ensures (x - Wrap64(x)) % TWO64 == 0
  {
    assert x - Wrap64(x) == (x + TWO63) / TWO64 * TWO64;
  }

  // ---------- decimal text ----------

  predicate IsDigit(c: char) { '0' <= c <= '9' }

  function DigitChar(d: nat): (c: char)
    requires d < 10
    ensures IsDigit(c) && DigitValue(c) == d
  {
    '0' + d as char
  }

  function DigitValue(c: char): (d: nat)
    requires IsDigit(c)
    ensures d < 10
  {
    c as int - '0' as int
  }

  /** strconv.FormatUint in base 10. */
  function PrintNat(n: nat): (s: string)
    ensures s != []
    ensures forall i :: 0 <= i < |s| ==> IsDigit(s[i])
  {
    if n < 10 then [DigitChar(n)] else PrintNat(n / 10) + [DigitChar(n % 10)]
  }

  /** What strconv.ParseUint returns: callers that drop the error still read `value`. */
  datatype Parsed = Parsed(value: nat, ok: bool)

  /** strconv.ParseUint in base 10 with largest value `max`: 0 on a syntax error, `max` when out of range. */
  function ParseUint(s: string, max: nat): (p: Parsed)
    ensures p.value <= max
  {
    if s == [] then Parsed(0, false) else ParseDigits(s, 0, max)
  }

  function ParseDigits(s: string, acc: nat, max: nat): (p: Parsed)
    requires acc <= max
    ensures p.value <= max
  {
    if s == [] then Parsed(acc, true)
    else if !IsDigit(s[0]) then Parsed(0, false)
    else
      var n := 10 * acc + DigitValue(s[0]);
      if n > max then Parsed(max, false) else ParseDigits(s[1..], n, max)
  }

  lemma {:induction false} ParseDigitsPrinted(n: nat, rest: string, max: nat)
    requires n <= max
    ensures ParseDigits(PrintNat(n) + rest, 0, max) == ParseDigits(rest, n, max)
  {
    if n < 10 {
      assert ([DigitChar(n)] + rest)[1..] == rest;
    } else {
      var last := [DigitChar(n % 10)];
      assert PrintNat(n) + rest == PrintNat(n / 10) + (last + rest);
      ParseDigitsPrinted(n / 10, last + rest, max);
      OneMoreDigit(n / 10, n % 10, rest, max);
    }
  }

  lemma OneMoreDigit(acc: nat, d: nat, rest: string, max: nat)
    requires d < 10 && 10 * acc + d <= max
    ensures ParseDigits([DigitChar(d)] + rest, acc, max) == ParseDigits(rest, 10 * acc + d, max)
  {
    assert ([DigitChar(d)] + rest)[1..] == rest;
  }

  /** Reading back a printed number that fits gives the number and no error. */
  lemma ParsePrinted(n: nat, max: nat)
    requires n <= max
    ensures ParseUint(PrintNat(n), max) == Parsed(n, true)
  {
    ParseDigitsPrinted(n, [], max);
    assert PrintNat(n) + [] == PrintNat(n);
  }

  // ---------- what the text of a number means ----------

  predicate AllDigits(s: string) { forall i :: 0 <= i < |s| ==> IsDigit(s[i]) }

  /** Positional value, from the last digit to the first. */
  function Decimal(s: string): nat
    requires AllDigits(s)
  {
    if s == [] then 0 else 10 * Decimal(s[..|s| - 1]) + (s[|s| - 1] as int - '0' as int)
  }

  /** The digits read before the text ends or breaks off are too large a number already. */
  ghost predicate TooLarge(s: string, max: nat) {
    exists k :: 0 <= k <= |s| && AllDigits(s[..k]) && Decimal(s[..k]) > max
  }

  lemma {:induction false} DecimalGrows(s: string, k: nat)
    requires AllDigits(s) && k <= |s|
    ensures Decimal(s[..k]) <= Decimal(s)
    decreases |s| - k
  {
    if k < |s| {
      assert s[..k + 1][..k] == s[..k];
      DecimalGrows(s, k + 1);
    } else {
      assert s[..k] == s;
    }
  }

  lemma {:induction false} ParseFrom(s: string, k: nat, max: nat)
    requires k <= |s| && AllDigits(s[..k]) && Decimal(s[..k]) <= max
    ensures var p := ParseDigits(s[k..], Decimal(s[..k]), max);
      if p.ok then AllDigits(s) && p.value == Decimal(s) && !TooLarge(s, max)
      else if TooLarge(s, max) then p.value == max && (AllDigits(s) ==> Decimal(s) > max)
      else p.value == 0 && !AllDigits(s)
    decreases |s| - k
  {
    if k == |s| {
      assert s[..k] == s;
      forall j | 0 <= j <= |s| ensures Decimal(s[..j]) <= max { DecimalGrows(s, j); }
    } else if IsDigit(s[k]) {
      assert s[..k + 1][..k] == s[..k] && s[k..][1..] == s[k + 1..];
      if Decimal(s[..k + 1]) <= max {
        ParseFrom(s, k + 1, max);
      } else if AllDigits(s) {
        DecimalGrows(s, k + 1);
      }
    } else {
      forall j | k < j <= |s| ensures !AllDigits(s[..j]) {
        assert s[..j][k] == s[k];
      }
      forall j | 0 <= j <= k ensures AllDigits(s[..j]) && Decimal(s[..j]) <= max {
        assert s[..k][..j] == s[..j];
        DecimalGrows(s[..k], j);
      }
    }
  }

  /** A text reads as a number exactly when it is one of decimal digits that is not too large. Otherwise
      the value is the maximum when the number got too large, and 0 when something else came first. */
  lemma ParseUintIff(s: string, max: nat)
    ensures var p := ParseUint(s, max);
      && (p.ok <==> s != [] && AllDigits(s) && Decimal(s) <= max)
      && p.value == if p.ok then Decimal(s) else if TooLarge(s, max) then max else 0
  {
    if s != [] {
      assert s[..0] == [] && s[0..] == s;
      ParseFrom(s, 0, max);
      assert s[..|s|] == s;
    }
  }

  /** A printed number has its value and no leading zero. */
  lemma {:induction false} PrintedDecimal(n: nat)
    ensures AllDigits(PrintNat(n)) && Decimal(PrintNat(n)) == n
    ensures PrintNat(n)[0] == '0' <==> n == 0
  {
    if n >= 10 {
      PrintedDecimal(n / 10);
      var s := PrintNat(n);
      assert s[..|s| - 1] == PrintNat(n / 10);
    }
  }
}
