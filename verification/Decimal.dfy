/** Decimal text of integers, and reading it back in 64-bit two's-complement arithmetic. */
module Decimal {
  import opened Bytes

  const MINUS: byte := 45
  const PLUS: byte := 43
  const ZERO: byte := 48

  const TWO63 := 0x8000_0000_0000_0000
  const TWO64 := 0x1_0000_0000_0000_0000

  predicate IsInt64(n: int) { -TWO63 <= n < TWO63 }

  /** The int64 a Go expression holds when its exact value is `x`. */
  function Wrap(x: int): int { (x + TWO63) % TWO64 - TWO63 }

  predicate IsDigit(b: byte) { ZERO <= b <= 57 }

  predicate AllDigits(s: bytes) { forall i :: 0 <= i < |s| ==> IsDigit(s[i]) }

  function Digit(n: nat): byte
    requires n < 10
  {
    ZERO + n as byte
  }

  /** The decimal digits of `n`, without leading zeros. */
  function Digits(n: nat): bytes {
    if n < 10 then [Digit(n)] else Digits(n / 10) + [Digit(n % 10)]
  }

  /** `%d`, and strconv.AppendInt in base 10. */
  function Text(n: int): bytes { if n < 0 then [MINUS] + Digits(-n) else Digits(n) }

  function Value(s: bytes): nat
    requires AllDigits(s)
  {
    if s == [] then 0 else 10 * Value(s[..|s| - 1]) + (s[|s| - 1] - ZERO) as nat
  }

  lemma {:induction false} DigitsValue(n: nat)
    ensures AllDigits(Digits(n)) && Value(Digits(n)) == n && Digits(n) != []
  {
    if n < 10 {
      assert Digits(n)[..0] == [];
    } else {
      DigitsValue(n / 10);
      var s := Digits(n);
      assert s[..|s| - 1] == Digits(n / 10);
    }
  }

  function Pow10(k: nat): nat { if k == 0 then 1 else 10 * Pow10(k - 1) }

  /** A number below 10^k has at most k digits. */
  lemma {:induction false} DigitsLength(n: nat, k: nat)
    requires n < Pow10(k) && k >= 1
    ensures |Digits(n)| <= k
  {
    if n >= 10 {
      assert Pow10(k) == 10 * Pow10(k - 1);
      assert k >= 2 by { assert Pow10(1) == 10 * Pow10(0); }
      DigitsLength(n / 10, k - 1);
    }
  }

  lemma Int64Digits(n: nat)
    requires n <= TWO63
    ensures |Digits(n)| <= 19
  {
    assert Pow10(5) == 100_000;
    assert Pow10(10) == 10_000_000_000 by { assert Pow10(6) == 1_000_000; assert Pow10(8) == 100_000_000; }
    assert Pow10(15) == 1_000_000_000_000_000 by { assert Pow10(12) == 1_000_000_000_000; }
    assert Pow10(19) == 10_000_000_000_000_000_000 by { assert Pow10(17) == 100_000_000_000_000_000; }
    DigitsLength(n, 19);
  }

  /** Wrap is reduction modulo 2^64. */
  lemma WrapOf(x: int)
    ensures IsInt64(Wrap(x)) && exists k: int :: Wrap(x) == x + k * TWO64
    ensures IsInt64(x) ==> Wrap(x) == x
  {
    var k := -((x + TWO63) / TWO64);
    assert Wrap(x) == x + k * TWO64;
  }

  lemma WrapShift(x: int, k: int)
    ensures Wrap(x + k * TWO64) == Wrap(x)
  {
    var q, r := (x + TWO63) / TWO64, (x + TWO63) % TWO64;
    assert x + k * TWO64 + TWO63 == (q + k) * TWO64 + r;
    Remainder(q + k, r);
  }

  lemma Remainder(q: int, r: int)
    requires 0 <= r < TWO64
    ensures (q * TWO64 + r) % TWO64 == r
  {
  }

  /** One step of Go's accumulating loops, `n *= 10; n += d`, each operation wrapping. */
  function Shift10(n: int, d: int): int { Wrap(Wrap(n * 10) + d) }

  lemma ShiftWraps(v: int, d: int)
    ensures Shift10(Wrap(v), d) == Wrap(10 * v + d)
  {
    WrapOf(v);
    var k: int :| Wrap(v) == v + k * TWO64;
    assert Wrap(v) * 10 == 10 * v + (10 * k) * TWO64;
    WrapShift(10 * v, 10 * k);
    WrapOf(10 * v);
    var j: int :| Wrap(10 * v) == 10 * v + j * TWO64;
    assert Wrap(10 * v) + d == (10 * v + d) + j * TWO64;
    WrapShift(10 * v + d, j);
  }

  lemma NegateWraps(v: int)
    ensures Wrap(-Wrap(v)) == Wrap(-v)
  {
    WrapOf(v);
    var k: int :| Wrap(v) == v + k * TWO64;
    assert -Wrap(v) == -v + (-k) * TWO64;
    WrapShift(-v, -k);
  }

  /** strconv.Atoi with its error ignored: 0 for text that is no number, the nearest int64 for a
      number out of range. */
  function Atoi(s: bytes): int {
    var signed := s != [] && (s[0] == MINUS || s[0] == PLUS);
    var body := if signed then s[1..] else s;
    if body == [] || !AllDigits(body) then 0
    else if signed && s[0] == MINUS then (if Value(body) > TWO63 then -TWO63 else 0 - Value(body))
    else (if Value(body) >= TWO63 then TWO63 - 1 else Value(body))
  }

  lemma AtoiEmpty()
    ensures Atoi([]) == 0
  {
  }

  /** Signs, numbers out of range, and text that is no number. */
  lemma AtoiOf(s: bytes)
    ensures s != [] && AllDigits(s) ==>
      && Atoi(s) == (if Value(s) < TWO63 then Value(s) else TWO63 - 1) && Atoi([PLUS] + s) == Atoi(s)
      && Atoi([MINUS] + s) == (if Value(s) <= TWO63 then 0 - Value(s) else -TWO63)
    ensures !AllDigits(s) ==> Atoi([MINUS] + s) == 0 && Atoi([PLUS] + s) == 0
    ensures s != [] && !IsDigit(s[0]) && s[0] != MINUS && s[0] != PLUS ==> Atoi(s) == 0
  {
    assert ([PLUS] + s)[1..] == s && ([MINUS] + s)[1..] == s;
    if s != [] && AllDigits(s) { assert IsDigit(s[0]); }
  }

  lemma AtoiText(n: nat)
    requires IsInt64(n)
    ensures Text(n) != [] && Atoi(Text(n)) == n
  {
    DigitsValue(n);
  }
}
