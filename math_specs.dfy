/** Reference definitions for the integer utilities that several samples
    implement in several languages: factorial, primality, Fibonacci numbers,
    powers, and the fixed-width integer ranges of C++, Java and Go.

    The implementations in the per-language modules are proved against these
    definitions; the lemmas here state what the definitions mean.
 */
module MathSpecs {
  import Outcomes

  // ----- Fixed-width integers -----

  const TWO_31: int := 0x8000_0000
  const TWO_32: int := 0x1_0000_0000
  const TWO_63: int := 0x8000_0000_0000_0000
  const TWO_64: int := 0x1_0000_0000_0000_0000

  /** The range of a signed 32-bit integer (C++ `int`, Java `int`). */
  predicate IsInt32(x: int) { -TWO_31 <= x < TWO_31 }

  /** The range of a signed 64-bit integer (C++ `long long`, Java `long`, Go `int`/`int64`). */
  predicate IsInt64(x: int) { -TWO_63 <= x < TWO_63 }

  /** Two's-complement wrap-around to 32 bits, as Java `int` arithmetic does. */
  function Wrap32(x: int): (r: int)
    ensures IsInt32(r)
    ensures (x - r) % TWO_32 == 0
    ensures IsInt32(x) ==> r == x
  {
    (x + TWO_31) % TWO_32 - TWO_31
  }

  /** Two's-complement wrap-around to 64 bits, as Java `long` and Go `int64` arithmetic do. */
  function Wrap64(x: int): (r: int)
    ensures IsInt64(r)
    ensures (x - r) % TWO_64 == 0
    ensures IsInt64(x) ==> r == x
  {
    (x + TWO_63) % TWO_64 - TWO_63
  }

  /** Two integers that agree modulo 2^32 wrap to the same 32-bit value. */
  lemma Wrap32Congruent(x: int, y: int)
    requires (x - y) % TWO_32 == 0
    ensures Wrap32(x) == Wrap32(y)
  {
    var k := (x - y) / TWO_32;
    assert x + TWO_31 == (y + TWO_31) + k * TWO_32;
  }

  /** Two integers that agree modulo 2^64 wrap to the same 64-bit value. */
  lemma Wrap64Congruent(x: int, y: int)
    requires (x - y) % TWO_64 == 0
    ensures Wrap64(x) == Wrap64(y)
  {
    var k := (x - y) / TWO_64;
    assert x + TWO_63 == (y + TWO_63) + k * TWO_64;
  }

  // ----- Factorial -----

  /** n! for a natural number n. */
  function Fact(n: nat): (r: nat)
    ensures r >= 1
    ensures n >= 1 ==> r >= n
  {
    if n == 0 then 1 else n * Fact(n - 1)
  }

  /** 20! is the largest factorial that fits in a signed 64-bit integer, and 21! does not. */
  lemma FactFitsInt64(n: nat)
    ensures n <= 20 ==> IsInt64(Fact(n))
    ensures !IsInt64(Fact(21))
  {
    assert Fact(0) == 1;
    assert Fact(1) == 1;
    assert Fact(2) == 2;
    assert Fact(3) == 6;
    assert Fact(4) == 24;
    assert Fact(5) == 120;
    assert Fact(6) == 720;
    assert Fact(7) == 5040;
    assert Fact(8) == 40320;
    assert Fact(9) == 362880;
    assert Fact(10) == 3628800;
    assert Fact(11) == 39916800;
    assert Fact(12) == 479001600;
    assert Fact(13) == 6227020800;
    assert Fact(14) == 87178291200;
    assert Fact(15) == 1307674368000;
    assert Fact(16) == 20922789888000;
    assert Fact(17) == 355687428096000;
    assert Fact(18) == 6402373705728000;
    assert Fact(19) == 121645100408832000;
    assert Fact(20) == 2432902008176640000;
    assert Fact(21) == 51090942171709440000;
    if n <= 20 {
      FactMonotone(n, 20);
    }
  }

  lemma {:induction false} FactMonotone(m: nat, n: nat)
    requires m <= n
    ensures Fact(m) <= Fact(n)
    decreases n - m
  {
    if m < n {
      FactMonotone(m, n - 1);
      MulAtLeast(n, Fact(n - 1));
    }
  }

  /** The factorial loop of a language whose 64-bit multiplication wraps around:
      result starts at 1 and is multiplied by 2, 3, ..., n in turn. */
  function WrappedFact64(n: nat): (r: int)
    ensures IsInt64(r)
  {
    if n <= 1 then 1 else Wrap64(WrappedFact64(n - 1) * n)
  }

  /** Up to 20 the wrapping loop computes n! exactly; at 21 it has wrapped. */
  lemma {:induction false} WrappedFact64Exact(n: nat)
    ensures n <= 20 ==> WrappedFact64(n) == Fact(n)
    ensures WrappedFact64(21) != Fact(21)
  {
    FactFitsInt64(n);
    if 1 < n <= 20 {
      WrappedFact64Exact(n - 1);
      assert WrappedFact64(n - 1) * n == Fact(n);
    }
  }

  lemma MulAtLeast(a: int, b: int)
    requires a >= 1 && b >= 0
    ensures a * b >= b
  {
  }

  // ----- Primality -----

  /** d divides n. */
  predicate Divides(d: int, n: int) { d != 0 && n % d == 0 }

  /** n is prime: greater than 1 and without a divisor strictly between 1 and n. */
  predicate IsPrime(n: int)
  {
    n > 1 && forall d :: 1 < d < n ==> !Divides(d, n)
  }

  /** A multiple of a positive number leaves remainder 0. */
  lemma MulMod(a: int, k: int)
    requires a > 0
    ensures (a * k) % a == 0
  {
    var q := (a * k) / a;
    var r := (a * k) % a;
    assert a * k == a * q + r;
    var delta := k - q;
    assert r == a * delta;
    MulSignBounds(a, delta);
  }

  /** The offset k inside a block of width w is the remainder of m * w + k. */
  lemma ModOfBlock(m: int, w: int, k: int)
    requires w > 0 && 0 <= k < w
    ensures (m * w + k) % w == k
  {
    var p := m * w + k;
    var q := p / w;
    var r := p % w;
    assert p == w * q + r;
    var delta := q - m;
    assert w * delta == k - r;
    MulSignBounds(w, delta);
  }

  lemma MulSignBounds(a: int, x: int)
    requires a > 0
    ensures x >= 1 ==> a * x >= a
    ensures x <= -1 ==> a * x <= -a
  {
  }

  /** A divisor of a multiple of 2 (or 3) carries the factor over: 2 | d and d | n give 2 | n. */
  lemma DividesTransitive(a: int, d: int, n: int)
    requires a == 2 || a == 3
    requires d > 0 && Divides(a, d) && Divides(d, n)
    ensures Divides(a, n)
  {
    var k := d / a;
    var m := n / d;
    assert d == a * k;
    assert n == d * m;
    var x := k * m;
    assert n == a * x;
  }

  /** Every even number above 2 and every multiple of 3 above 3 is composite. */
  lemma SmallFactorsExcludePrime(n: int)
    requires n > 3
    requires Divides(2, n) || Divides(3, n)
    ensures !IsPrime(n)
  {
    if Divides(2, n) {
      assert 1 < 2 < n;
    } else {
      assert 1 < 3 < n;
    }
  }

  /** The step of the 6k-1 / 6k+1 loop: when n has no factor 2 or 3 and neither
      i nor i + 2 divides it, the invariant "no divisor below i" moves from i to
      i + 6, because i + 1, i + 3 and i + 5 are even and i + 4 is a multiple of 3. */
  lemma StepSixPreservesNoDivisor(n: int, i: int)
    requires n > 3 && !Divides(2, n) && !Divides(3, n)
    requires i >= 5 && i % 6 == 5
    requires forall d :: 1 < d < i ==> !Divides(d, n)
    requires !Divides(i, n) && !Divides(i + 2, n)
    ensures forall d :: 1 < d < i + 6 ==> !Divides(d, n)
  {
    var q := i / 6;
    assert i == 6 * q + 5;
    assert q >= 0;
    forall d | i <= d < i + 6
      ensures !Divides(d, n)
    {
      if d == i + 1 {
        MultipleExcludes(2, 3 * q + 3, d, n);
      } else if d == i + 3 {
        MultipleExcludes(2, 3 * q + 4, d, n);
      } else if d == i + 5 {
        MultipleExcludes(2, 3 * q + 5, d, n);
      } else if d == i + 4 {
        MultipleExcludes(3, 2 * q + 3, d, n);
      }
    }
  }

  /** A multiple d = a * k of 2 or 3 does not divide a number that a does not divide. */
  lemma MultipleExcludes(a: int, k: int, d: int, n: int)
    requires a == 2 || a == 3
    requires k >= 1 && d == a * k && !Divides(a, n)
    ensures !Divides(d, n)
  {
    MulMod(a, k);
    if Divides(d, n) {
      DividesTransitive(a, d, n);
    }
  }

  /** One pass of the 6k-1 / 6k+1 loop at i, where i * i <= n: a divisor i or
      i + 2 shows n composite, and otherwise no divisor lies below i + 6. */
  lemma TrialStep(n: int, i: int)
    requires n > 3 && !Divides(2, n) && !Divides(3, n)
    requires i >= 5 && i % 6 == 5 && i * i <= n
    requires forall d :: 1 < d < i ==> !Divides(d, n)
    ensures i + 2 < n && (i + 6) % 6 == 5
    ensures n % i == 0 ==> !IsPrime(n)
    ensures n % (i + 2) == 0 ==> !IsPrime(n)
    ensures n % i != 0 && n % (i + 2) != 0 ==> forall d :: 1 < d < i + 6 ==> !Divides(d, n)
  {
    TrialDivisorsBelow(n, i);
    if n % i == 0 {
      assert Divides(i, n);
    } else if n % (i + 2) == 0 {
      assert Divides(i + 2, n);
    } else {
      StepSixPreservesNoDivisor(n, i);
    }
  }

  /** The loop's starting point: a number above 3 with no factor 2 or 3 has no divisor below 5. */
  lemma NoDivisorBelowFive(n: int)
    requires n > 3 && !Divides(2, n) && !Divides(3, n)
    ensures forall d :: 1 < d < 5 ==> !Divides(d, n)
  {
    assert Divides(2, 4);
    if Divides(4, n) { DividesTransitive(2, 4, n); }
  }

  /** Inside the loop, where i * i <= n and i >= 5, both trial divisors i and
      i + 2 lie strictly between 1 and n. */
  lemma TrialDivisorsBelow(n: int, i: int)
    requires i >= 5 && i * i <= n
    ensures 1 < i && i + 2 < n
  {
    assert i * i >= 5 * i;
  }

  /** A divisor d of n with i <= d < n, where i * i > n, has a cofactor that is
      also a divisor of n, strictly between 1 and i. */
  lemma CofactorBelowRoot(n: int, d: int, i: int)
    requires n > 1 && i >= 2 && i <= d < n
    requires Divides(d, n) && i * i > n
    ensures 1 < n / d < i && Divides(n / d, n)
  {
    var e := n / d;
    assert n == d * e;
    assert i * i <= i * d;
    assert e * d < i * d;
    assert e != 1;
    MulMod(e, d);
    assert n == e * d;
  }

  /** Trial division may stop at the square root: a number above 1 with no divisor
      below i, where i * i exceeds it, is prime. */
  lemma NoDivisorBelowRootIsPrime(n: int, i: int)
    requires n > 1 && i >= 2
    requires forall d :: 1 < d < i ==> !Divides(d, n)
    requires i * i > n
    ensures IsPrime(n)
  {
    forall d | 1 < d < n
      ensures !Divides(d, n)
    {
      if d >= i && Divides(d, n) {
        CofactorBelowRoot(n, d, i);
        assert false;
      }
    }
  }

  /** The reference definition agrees with the small cases every implementation
      handles before its loop. */
  lemma SmallPrimes()
    ensures !IsPrime(0) && !IsPrime(1) && IsPrime(2) && IsPrime(3) && !IsPrime(4)
  {
    assert Divides(2, 4);
  }

  // ----- Fibonacci -----

  /** The k-th Fibonacci number, counted from Fib(0) == 0 and Fib(1) == 1. */
  function Fib(k: nat): nat
  {
    if k < 2 then k else Fib(k - 1) + Fib(k - 2)
  }

  /** The first n Fibonacci numbers. */
  predicate IsFibPrefix(s: seq<int>, n: nat)
  {
    |s| == n && forall k :: 0 <= k < n ==> s[k] == Fib(k)
  }

  /** Each element of a Fibonacci prefix beyond the first two is the sum of the two before it. */
  lemma FibPrefixRecurrence(s: seq<int>, n: nat)
    requires IsFibPrefix(s, n)
    ensures n >= 1 ==> s[0] == 0
    ensures n >= 2 ==> s[1] == 1
    ensures forall k :: 2 <= k < n ==> s[k] == s[k - 1] + s[k - 2]
  {
  }

  // ----- Powers -----

  /** b raised to the natural exponent e. */
  function Pow(b: int, e: nat): int
  {
    if e == 0 then 1 else b * Pow(b, e - 1)
  }

  /** The law of exponents b^(e1+e2) == b^e1 * b^e2. */
  lemma {:induction false} PowAdd(b: int, e1: nat, e2: nat)
    ensures Pow(b, e1 + e2) == Pow(b, e1) * Pow(b, e2)
  {
    if e1 > 0 {
      PowAdd(b, e1 - 1, e2);
      assert Pow(b, e1 + e2) == b * Pow(b, e1 - 1 + e2);
    }
  }

  /** A power of a non-zero base is non-zero. */
  lemma {:induction false} PowNonZero(b: int, e: nat)
    requires b != 0
    ensures Pow(b, e) != 0
  {
    if e > 0 {
      PowNonZero(b, e - 1);
    }
  }

  /** The value of Python's `x ** y` on two ints: an int for a natural
      exponent, a float for a negative one. */
  datatype PowerValue = IntPower(i: int) | FloatPower(f: real)

  /** The number a PowerValue stands for. */
  function AsReal(p: PowerValue): real
  {
    match p
    case IntPower(i) => i as real
    case FloatPower(f) => f
  }

  /** Python `x ** y` on ints: x^y as an int when y >= 0; for y < 0 the float
      1 / x^-y, and ZeroDivisionError when x is 0. Float rounding is not
      modelled: the float is the exact rational. */
  function PyPow(x: int, y: int): (r: Outcomes.Result<PowerValue>)
    ensures r.Err? <==> x == 0 && y < 0
    ensures r.Err? ==> r == Outcomes.Err(Outcomes.ZeroDivisionError, "0.0 cannot be raised to a negative power")
    ensures r.Ok? ==> (r.value.IntPower? <==> y >= 0)
  {
    if y >= 0 then Outcomes.Ok(IntPower(Pow(x, y)))
    else if x == 0 then Outcomes.Err(Outcomes.ZeroDivisionError, "0.0 cannot be raised to a negative power")
    else
      PowNonZero(x, -y);
      Outcomes.Ok(FloatPower(1.0 / (Pow(x, -y) as real)))
  }

  /** PyPow agrees with Pow on natural exponents. */
  lemma PyPowNatural(x: int, y: nat)
    ensures PyPow(x, y) == Outcomes.Ok(IntPower(Pow(x, y)))
  {
  }

  /** For a non-zero base, a negative exponent gives the reciprocal of the
      natural power x^-y. */
  lemma PyPowNegative(x: int, y: int)
    requires x != 0 && y < 0
    ensures PyPow(x, y).Ok? && AsReal(PyPow(x, y).value) * (Pow(x, -y) as real) == 1.0
  {
    PowNonZero(x, -y);
  }

  /** An even power is never negative. */
  lemma {:induction false} PowEvenNonNegative(b: int, e: nat)
    requires e % 2 == 0
    ensures Pow(b, e) >= 0
  {
    if e > 0 {
      PowEvenNonNegative(b, e - 2);
      assert Pow(b, e) == b * (b * Pow(b, e - 2));
      assert Pow(b, e) == (b * b) * Pow(b, e - 2);
    }
  }
}
