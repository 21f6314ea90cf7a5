/**
 * The Go integer semantics the evaluator relies on: `/` on int, the `^` case
 * computed through math.Pow on float64, and strconv.Atoi.  Integers are
 * unbounded here; Go's 64-bit wrap-around is not modelled.
 */
module GoArith {
  import opened Bytes

  function Abs(x: int): nat {
    if x < 0 then -x else x
  }

  /**
   * Go's `a / b` on int: the quotient truncated toward zero.  The remainder
   * `a - q * b` is smaller than the divisor in magnitude and never has the
   * opposite sign of the dividend.
   */
  function Quo(a: int, b: int): (q: int)
    requires b != 0
    ensures Abs(a - q * b) < Abs(b)
    ensures a >= 0 ==> a - q * b >= 0
    ensures a < 0 ==> a - q * b <= 0
  {
    var m := Abs(a) / Abs(b);
    QuoSplit(Abs(a), Abs(b));
    if (a < 0) == (b < 0) then
      assert a - m * b == if a < 0 then -(Abs(a) - m * Abs(b)) else Abs(a) - m * Abs(b);
      m
    else
      assert a - (-m) * b == if a < 0 then -(Abs(a) - m * Abs(b)) else Abs(a) - m * Abs(b);
      -m
  }

  lemma QuoSplit(x: nat, y: nat)
    requires y > 0
    ensures 0 <= x - (x / y) * y < y
  {
  }

  lemma AbsOfProduct(x: int, y: int)
    ensures Abs(x * y) == Abs(x) * Abs(y)
  {
    if x < 0 && y < 0 { assert x * y == (-x) * (-y); }
    else if x < 0 { assert x * y == -((-x) * y); }
    else if y < 0 { assert x * y == -(x * (-y)); }
  }

  lemma NonZeroMultiple(k: int, b: int)
    requires k != 0
    ensures Abs(k * b) >= Abs(b)
  {
    AbsOfProduct(k, b);
    var m := Abs(k) - 1;
    assert m * Abs(b) >= 0;
    assert Abs(k) * Abs(b) == m * Abs(b) + Abs(b);
  }

  lemma SmallMultiple(k: int, b: int)
    requires b != 0 && Abs(k * b) < Abs(b)
    ensures k == 0
  {
    if k != 0 {
      NonZeroMultiple(k, b);
    }
  }

  /** Two remainders of the same sign, both smaller than m in magnitude, differ by less than m. */
  lemma SameSignClose(r: int, r0: int, m: int)
    requires Abs(r) < m && Abs(r0) < m
    requires (r >= 0 && r0 >= 0) || (r <= 0 && r0 <= 0)
    ensures Abs(r - r0) < m
  {
  }

  /** The truncated quotient is the only integer with Quo's remainder property. */
  lemma {:induction false} QuoUnique(a: int, b: int, q: int)
    requires b != 0
    requires Abs(a - q * b) < Abs(b)
    requires a >= 0 ==> a - q * b >= 0
    requires a < 0 ==> a - q * b <= 0
    ensures q == Quo(a, b)
  {
    var q0 := Quo(a, b);
    SameSignClose(a - q * b, a - q0 * b, Abs(b));
    MulSubDistrib(q0, q, b);
    SmallMultiple(q0 - q, b);
  }

  lemma MulSubDistrib(x: int, y: int, b: int)
    ensures (x - y) * b == x * b - y * b
  {
  }

  /** Exact integer power with a natural exponent. */
  function Power(a: int, n: nat): int {
    if n == 0 then 1 else a * Power(a, n - 1)
  }

  /**
   * The result Go's amd64 conversion int(f) gives when f is +Inf; the Go
   * specification leaves it to the implementation.
   */
  const InfToInt: int := -0x8000_0000_0000_0000

  /**
   * int(math.Pow(float64(a), float64(b))) computed without rounding: the
   * exact power for b >= 0, and for b < 0 the exact value 1 / a^-b truncated
   * toward zero (math.Pow(0, b) is +Inf there).
   */
  function FloatPow(a: int, b: int): int {
    if b >= 0 then Power(a, b)
    else if a == 0 then InfToInt
    else if a == 1 then 1
    else if a == -1 then (if b % 2 == 0 then 1 else -1)
    else 0
  }

  lemma {:induction false} PowerOfMinusOne(n: nat)
    ensures Power(-1, n) == if n % 2 == 0 then 1 else -1
  {
    if n > 0 {
      PowerOfMinusOne(n - 1);
    }
  }

  lemma {:induction false} PowerGrows(a: int, n: nat)
    requires Abs(a) >= 2 && n >= 1
    ensures Abs(Power(a, n)) >= 2
  {
    if n > 1 {
      PowerGrows(a, n - 1);
      var p := Power(a, n - 1);
      AbsOfProduct(a, p);
      assert Abs(a) * Abs(p) >= 2 * 2;
    }
  }

  /**
   * For a negative exponent and a non-zero base, FloatPow is the reciprocal
   * of the exact power truncated toward zero, as float64 division followed by
   * the int conversion gives it.
   */
  lemma FloatPowNegativeExponent(a: int, b: int)
    requires b < 0 && a != 0
    ensures Power(a, -b) != 0
    ensures FloatPow(a, b) == Quo(1, Power(a, -b))
  {
    var n: nat := -b;
    if a == 1 {
      assert Power(1, n) == 1 by { PowerOfOne(n); }
    } else if a == -1 {
      PowerOfMinusOne(n);
      assert (b % 2 == 0) == (n % 2 == 0);
    } else {
      PowerGrows(a, n);
      QuoUnique(1, Power(a, n), 0);
    }
  }

  lemma {:induction false} PowerOfOne(n: nat)
    ensures Power(1, n) == 1
  {
    if n > 0 {
      PowerOfOne(n - 1);
    }
  }

  /** The value of a string of decimal digits, accumulated left to right as strconv's loop does. */
  function DecimalValue(s: seq<byte>): nat
    requires AllDigits(s)
  {
    if s == [] then 0 else 10 * DecimalValue(s[..|s| - 1]) + (s[|s| - 1] - Zero)
  }

  /**
   * strconv.Atoi with its error discarded: an optional sign followed by at
   * least one decimal digit gives its value, anything else gives 0.
   */
  function Atoi(s: seq<byte>): int {
    if |s| > 0 && (s[0] == PlusSign || s[0] == MinusSign) then
      var digits := s[1..];
      if digits == [] || !AllDigits(digits) then 0
      else
        var v: int := DecimalValue(digits);
        if s[0] == MinusSign then -v else v
    else if s == [] || !AllDigits(s) then 0
    else DecimalValue(s)
  }

  /** The decimal digits of a natural number, without leading zeros. */
  function FormatNat(n: nat): (s: seq<byte>)
    ensures |s| > 0 && AllDigits(s)
  {
    if n < 10 then [Zero + n] else FormatNat(n / 10) + [Zero + n % 10]
  }

  /** strconv.Itoa: the decimal form of an integer, with '-' for negatives. */
  function Itoa(n: int): (s: seq<byte>)
    ensures |s| > 0
  {
    if n < 0 then [MinusSign] + FormatNat(-n) else FormatNat(n)
  }

  lemma {:induction false} DecimalValueOfFormat(n: nat)
    ensures DecimalValue(FormatNat(n)) == n
  {
    if n >= 10 {
      DecimalValueOfFormat(n / 10);
      var s := FormatNat(n);
      assert s[..|s| - 1] == FormatNat(n / 10);
    }
  }

  /** Atoi reads back every integer Itoa writes. */
  lemma AtoiOfItoa(n: int)
    ensures Atoi(Itoa(n)) == n
  {
    var m: nat := Abs(n);
    DecimalValueOfFormat(m);
    if n < 0 {
      assert Itoa(n)[1..] == FormatNat(m);
    }
  }

  /**
   * A byte that is not a digit, anywhere but in the place of a leading sign,
   * makes Atoi fail, and with its error discarded that reads as 0.
   */
  lemma AtoiRejects(s: seq<byte>, i: nat)
    requires i < |s| && !IsDigit(s[i])
    requires i == 0 ==> s[0] != PlusSign && s[0] != MinusSign
    ensures Atoi(s) == 0
  {
    if s[0] == PlusSign || s[0] == MinusSign {
      assert s[1..][i - 1] == s[i];
    }
  }

  /** Atoi of a digit string is its decimal value. */
  lemma AtoiOfDigits(s: seq<byte>)
    requires |s| > 0 && AllDigits(s)
    ensures Atoi(s) == DecimalValue(s)
  {
    assert IsDigit(s[0]);
  }
}
