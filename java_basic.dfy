/** java/BasicFunctions.java: `int` arithmetic, which wraps around in Java,
    a parity test with Java's truncating remainder, a factorial in `long`,
    string reversal, a palindrome test over ASCII letters and digits, the
    maximum of an array and the empty-array check of the average.

    A Java string is modelled as its sequence of code points:
    StringBuilder.reverse keeps surrogate pairs together, so it reverses code
    points.
 */
module JavaBasic {
  import opened Outcomes
  import MathSpecs
  import opened SeqSpecs
  import opened Text

  /** add: the sum, wrapped to 32 bits. */
  function Add(a: int, b: int): (r: int)
    requires MathSpecs.IsInt32(a) && MathSpecs.IsInt32(b)
    ensures MathSpecs.IsInt32(r)
    ensures MathSpecs.IsInt32(a + b) ==> r == a + b
  {
    MathSpecs.Wrap32(a + b)
  }

  /** subtract: the difference, wrapped to 32 bits. */
  function Subtract(a: int, b: int): (r: int)
    requires MathSpecs.IsInt32(a) && MathSpecs.IsInt32(b)
    ensures MathSpecs.IsInt32(r)
    ensures MathSpecs.IsInt32(a - b) ==> r == a - b
  {
    MathSpecs.Wrap32(a - b)
  }

  /** multiply: the product, wrapped to 32 bits. */
  function Multiply(a: int, b: int): (r: int)
    requires MathSpecs.IsInt32(a) && MathSpecs.IsInt32(b)
    ensures MathSpecs.IsInt32(r)
    ensures MathSpecs.IsInt32(a * b) ==> r == a * b
  {
    MathSpecs.Wrap32(a * b)
  }

  /** Wrapping x - m by a multiple m of 2^32 changes nothing. */
  lemma WrapShift(x: int, y: int)
    requires (x - y) % MathSpecs.TWO_32 == 0
    ensures MathSpecs.Wrap32(x) == MathSpecs.Wrap32(y)
  {
    MathSpecs.Wrap32Congruent(x, y);
  }

  /** Because both operations wrap, subtracting b undoes adding b for every pair
      of ints, even when the sum overflows, and the other way round. */
  lemma AddSubtractInverse(a: int, b: int)
    requires MathSpecs.IsInt32(a) && MathSpecs.IsInt32(b)
    ensures Subtract(Add(a, b), b) == a
    ensures Add(Subtract(a, b), b) == a
  {
    var s := Add(a, b);
    var k := (a + b - s) / MathSpecs.TWO_32;
    assert a + b - s == k * MathSpecs.TWO_32;
    assert (s - b) - a == (-k) * MathSpecs.TWO_32;
    MathSpecs.MulMod(MathSpecs.TWO_32, -k);
    WrapShift(s - b, a);
    var d := Subtract(a, b);
    var m := (a - b - d) / MathSpecs.TWO_32;
    assert a - b - d == m * MathSpecs.TWO_32;
    assert (d + b) - a == (-m) * MathSpecs.TWO_32;
    MathSpecs.MulMod(MathSpecs.TWO_32, -m);
    WrapShift(d + b, a);
  }

  /** Multiplication commutes, and 1 and 0 behave as they should. */
  lemma MultiplyLaws(a: int, b: int)
    requires MathSpecs.IsInt32(a) && MathSpecs.IsInt32(b)
    ensures Multiply(a, b) == Multiply(b, a)
    ensures Multiply(a, 1) == a && Multiply(a, 0) == 0
  {
  }

  /** Java's % on ints: the remainder takes the sign of the dividend. */
  function JavaRem(a: int, b: int): (r: int)
    requires b != 0
    ensures a >= 0 ==> 0 <= r < if b > 0 then b else -b
    ensures a < 0 ==> (if b > 0 then -b else b) < r <= 0
    ensures exists q :: a == q * b + r
  {
    var m := if b > 0 then b else -b;
    var r := if a >= 0 then a % m else -((-a) % m);
    var t := if a >= 0 then a / m else -((-a) / m);
    var q := if b > 0 then t else -t;
    assert a == t * m + r;
    assert a == q * b + r;
    r
  }

  /** isEven: num % 2 == 0 with Java's remainder. */
  predicate IsEven(num: int)
    requires MathSpecs.IsInt32(num)
  {
    JavaRem(num, 2) == 0
  }

  /** A negative odd number has remainder -1 in Java, not 1, yet the test
      `== 0` sees through the sign: isEven holds exactly for the multiples of
      two. */
  lemma IsEvenIffMultipleOfTwo(num: int)
    requires MathSpecs.IsInt32(num)
    ensures IsEven(num) <==> exists k :: num == 2 * k
    ensures num < 0 && !IsEven(num) ==> JavaRem(num, 2) == -1
  {
    var m := if num >= 0 then num else -num;
    assert m == 2 * (m / 2) + m % 2;
    if IsEven(num) {
      if num >= 0 {
        assert num == 2 * (num / 2);
      } else {
        assert num == 2 * -((-num) / 2);
      }
    } else {
      assert m % 2 == 1;
      forall k
        ensures num != 2 * k
      {
        if num >= 0 {
          assert m == 2 * (m / 2) + 1;
        } else {
          assert -num == 2 * (m / 2) + 1;
        }
      }
    }
  }

  /** factorial: IllegalArgumentException for a negative n, otherwise the
      product 2 * 3 * ... * n in long arithmetic, exact up to 20 and wrapped
      from 21 on. The int counter `i <= n` never fails for Integer.MAX_VALUE,
      so that input is excluded. */
  method Factorial(n: int) returns (r: Result<int>)
    requires MathSpecs.IsInt32(n) && n < MathSpecs.TWO_31 - 1
    ensures r.Err? <==> n < 0
    ensures r.Err? ==> r == Err(IllegalArgument, "Factorial not defined for negative numbers")
    ensures r.Ok? ==> n >= 0 && r.value == MathSpecs.WrappedFact64(n) && MathSpecs.IsInt64(r.value)
    ensures r.Ok? && 0 <= n <= 20 ==> r.value == MathSpecs.Fact(n)
  {
    if n < 0 {
      return Err(IllegalArgument, "Factorial not defined for negative numbers");
    }
    var result := 1;
    var i := 2;
    while i <= n
      invariant i == 2 || 2 < i <= n + 1
      invariant result == MathSpecs.WrappedFact64(i - 1)
    {
      result := MathSpecs.Wrap64(result * i);
      i := i + 1;
    }
    assert result == MathSpecs.WrappedFact64(n) by {
      if n <= 1 {
        assert i == 2;
      }
    }
    MathSpecs.WrappedFact64Exact(n);
    return Ok(result);
  }

  /** reverseString: the code points in the opposite order; reversing the
      result gives the argument back. */
  function ReverseString(str: string): (r: string)
    ensures |r| == |str|
    ensures forall k :: 0 <= k < |str| ==> r[k] == str[|str| - 1 - k]
    ensures Reverse(r) == str
  {
    ReverseMirror(str);
    ReverseInvolutive(str);
    Reverse(str)
  }

  /** The text isPalindrome compares: the characters of [a-zA-Z0-9], lower-cased.
      Only ASCII letters remain, so the case mapping is the ASCII one. */
  function Clean(str: string): (clean: string)
    ensures forall k :: 0 <= k < |clean| ==> IsAsciiLower(clean[k]) || IsAsciiDigit(clean[k])
  {
    var kept := Filter(str, IsAsciiAlnum);
    FilterMembers(str, IsAsciiAlnum);
    assert forall k :: 0 <= k < |kept| ==> IsAsciiAlnum(kept[k]) by {
      forall k | 0 <= k < |kept| ensures IsAsciiAlnum(kept[k]) { assert kept[k] in kept; }
    }
    Lower(kept)
  }

  /** isPalindrome: the cleaned text compared with its mirror over the first half. */
  method IsPalindrome(str: string) returns (b: bool)
    ensures b <==> SeqSpecs.IsPalindrome(Clean(str))
  {
    var clean := Clean(str);
    var length := |clean|;
    PalindromeIffHalfMirror(clean);
    for i := 0 to length / 2
      invariant forall k :: 0 <= k < i ==> clean[k] == clean[length - 1 - k]
    {
      if clean[i] != clean[length - 1 - i] {
        return false;
      }
    }
    return true;
  }

  /** findMax: IllegalArgumentException for an empty array; otherwise the
      running maximum of arr[0..i) for i from 1. */
  method FindMax(arr: seq<int>) returns (r: Result<int>)
    ensures r.Err? <==> |arr| == 0
    ensures r.Err? ==> r == Err(IllegalArgument, "Array is empty")
    ensures r.Ok? ==> r.value == Max(arr)
    ensures r.Ok? ==> r.value in arr && forall k :: 0 <= k < |arr| ==> arr[k] <= r.value
  {
    if |arr| == 0 {
      return Err(IllegalArgument, "Array is empty");
    }
    var max := arr[0];
    assert arr[..1] == [arr[0]];
    for i := 1 to |arr|
      invariant max == Max(arr[..i])
    {
      MaxSnoc(arr, i);
      if arr[i] > max {
        max := arr[i];
      }
    }
    assert arr[..|arr|] == arr;
    return Ok(max);
  }

  /** calculateAverage: IllegalArgumentException exactly for an empty array. The
      average itself is a double and is not modelled. */
  function CalculateAverage(arr: seq<int>): (o: Outcome)
    ensures o.Fail? <==> |arr| == 0
    ensures o.Fail? ==> o.kind == IllegalArgument && o.message == "Cannot calculate average of empty array"
  {
    if |arr| == 0 then Fail(IllegalArgument, "Cannot calculate average of empty array") else Pass
  }
}
