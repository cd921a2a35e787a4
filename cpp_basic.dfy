/** cpp/basic_functions.cpp: integer arithmetic on `int`, factorial into a
    `long long`, the 6k-1 / 6k+1 primality test, string reversal and the merge
    of two sorted vectors.

    Signed overflow is undefined behaviour in C++, so the arithmetic functions
    require their results to fit in an `int`. A `std::string` is a sequence of
    bytes; reversal works byte by byte.
 */
module CppBasic {
  import opened Outcomes
  import MathSpecs
  import opened SeqSpecs

  type Byte = bv8

  /** add: a + b, defined only while the sum fits in an int. */
  function Add(a: int, b: int): (r: int)
    requires MathSpecs.IsInt32(a) && MathSpecs.IsInt32(b)
    requires MathSpecs.IsInt32(a + b)
    ensures MathSpecs.IsInt32(r)
  {
    a + b
  }

  /** subtract: a - b, defined only while the difference fits in an int. */
  function Subtract(a: int, b: int): (r: int)
    requires MathSpecs.IsInt32(a) && MathSpecs.IsInt32(b)
    requires MathSpecs.IsInt32(a - b)
    ensures MathSpecs.IsInt32(r)
  {
    a - b
  }

  /** multiply: a * b, defined only while the product fits in an int. */
  function Multiply(a: int, b: int): (r: int)
    requires MathSpecs.IsInt32(a) && MathSpecs.IsInt32(b)
    requires MathSpecs.IsInt32(a * b)
    ensures MathSpecs.IsInt32(r)
  {
    a * b
  }

  /** Subtracting b undoes adding b, and adding b undoes subtracting it. */
  lemma AddSubtractInverse(a: int, b: int)
    requires MathSpecs.IsInt32(a) && MathSpecs.IsInt32(b)
    ensures MathSpecs.IsInt32(a + b) ==> Subtract(Add(a, b), b) == a
    ensures MathSpecs.IsInt32(a - b) ==> Add(Subtract(a, b), b) == a
  {
  }

  /** Multiplication by 1 changes nothing and by 0 gives 0; the order of the
      factors does not matter. */
  lemma MultiplyLaws(a: int, b: int)
    requires MathSpecs.IsInt32(a) && MathSpecs.IsInt32(b) && MathSpecs.IsInt32(a * b)
    ensures Multiply(a, b) == Multiply(b, a)
    ensures Multiply(a, 1) == a && Multiply(a, 0) == 0
  {
  }

  /** factorial: invalid_argument for a negative n, otherwise n!. The product
      is a long long, so the precondition keeps n where 20! still fits; from 21
      on the multiplication overflows, which C++ leaves undefined. */
  method Factorial(n: int) returns (r: Result<int>)
    requires MathSpecs.IsInt32(n)
    requires n <= 20
    ensures r.Err? <==> n < 0
    ensures r.Err? ==> r == Err(InvalidArgument, "Factorial not defined for negative numbers")
    ensures r.Ok? ==> n >= 0 && r.value == MathSpecs.Fact(n) && MathSpecs.IsInt64(r.value)
  {
    if n < 0 {
      return Err(InvalidArgument, "Factorial not defined for negative numbers");
    }
    var result := 1;
    var i := 2;
    assert MathSpecs.Fact(1) == 1;
    while i <= n
      invariant i == 2 || 2 < i <= n + 1
      invariant result == MathSpecs.Fact(i - 1)
    {
      result := result * i;
      i := i + 1;
    }
    assert i == 2 || i == n + 1;
    assert result == MathSpecs.Fact(n) by {
      if n == 0 {
        assert MathSpecs.Fact(0) == 1;
      }
    }
    MathSpecs.FactFitsInt64(n);
    assert MathSpecs.IsInt64(result);
    return Ok(result);
  }

  /** isPrime: the small cases, the factors 2 and 3, then trial division by
      i and i + 2 for i = 5, 11, 17, ... while i * i <= n. */
  method IsPrime(n: int) returns (b: bool)
    requires MathSpecs.IsInt32(n)
    ensures b <==> MathSpecs.IsPrime(n)
  {
    MathSpecs.SmallPrimes();
    if n <= 1 {
      return false;
    }
    if n <= 3 {
      return true;
    }
    if n % 2 == 0 || n % 3 == 0 {
      MathSpecs.SmallFactorsExcludePrime(n);
      return false;
    }
    MathSpecs.NoDivisorBelowFive(n);
    var i := 5;
    while i * i <= n
      invariant i >= 5 && i % 6 == 5
      invariant forall d :: 1 < d < i ==> !MathSpecs.Divides(d, n)
      decreases n - i
    {
      MathSpecs.TrialStep(n, i);
      if n % i == 0 {
        return false;
      }
      if n % (i + 2) == 0 {
        return false;
      }
      i := i + 6;
    }
    MathSpecs.NoDivisorBelowRootIsPrime(n, i);
    return true;
  }

  /** std::reverse over the whole array: swap the outermost unswapped pair
      until the two positions meet. */
  method ReverseInPlace(a: array<Byte>)
    modifies a
    ensures a[..] == Reverse(old(a[..]))
  {
    var i := 0;
    var j := a.Length - 1;
    while i < j
      invariant 0 <= i <= a.Length && j == a.Length - 1 - i
      invariant i <= j + 1
      invariant forall k :: 0 <= k < i ==> a[k] == old(a[a.Length - 1 - k]) && a[a.Length - 1 - k] == old(a[k])
      invariant forall k :: i <= k <= j ==> a[k] == old(a[k])
      decreases j - i
    {
      a[i], a[j] := a[j], a[i];
      i := i + 1;
      j := j - 1;
    }
    ReverseFromMirror(old(a[..]), a[..]);
  }

  /** reverseString: a reversed copy; the argument is not changed. */
  method ReverseString(str: seq<Byte>) returns (reversed: seq<Byte>)
    ensures reversed == Reverse(str)
    ensures |reversed| == |str|
    ensures forall k :: 0 <= k < |str| ==> reversed[k] == str[|str| - 1 - k]
  {
    var copy := new Byte[|str|](k requires 0 <= k < |str| => str[k]);
    assert copy[..] == str;
    ReverseInPlace(copy);
    reversed := copy[..];
    forall k | 0 <= k < |str|
      ensures reversed[k] == str[|str| - 1 - k]
    {
      ReverseAt(str, k);
    }
  }

  /** mergeSorted: the first loop takes the smaller head, a's on a tie; the
      other two copy whichever input remains. The result is the reference
      merge, so it is a permutation of a ++ b, ascending when both inputs are,
      and every copy of a value in a or b appears in it. */
  method MergeSorted(a: seq<int>, b: seq<int>) returns (result: seq<int>)
    ensures result == Merge(a, b)
    ensures |result| == |a| + |b|
    ensures multiset(result) == multiset(a + b)
    ensures Ascending(a) && Ascending(b) ==> Ascending(result)
    ensures Ascending(a) && Ascending(b) ==>
              forall v :: Filter(result, EqualTo(v)) == Filter(a, EqualTo(v)) + Filter(b, EqualTo(v))
  {
    result := [];
    var i, j := 0, 0;
    while i < |a| && j < |b|
      invariant 0 <= i <= |a| && 0 <= j <= |b|
      invariant result + Merge(a[i..], b[j..]) == Merge(a, b)
      decreases |a| - i + |b| - j
    {
      if a[i] <= b[j] {
        MergeTakesA(a, b, i, j);
        assert (result + [a[i]]) + Merge(a[i + 1..], b[j..]) == result + Merge(a[i..], b[j..]);
        result := result + [a[i]];
        i := i + 1;
      } else {
        MergeTakesB(a, b, i, j);
        assert (result + [b[j]]) + Merge(a[i..], b[j + 1..]) == result + Merge(a[i..], b[j..]);
        result := result + [b[j]];
        j := j + 1;
      }
    }
    while i < |a|
      invariant 0 <= i <= |a| && 0 <= j <= |b| && (i == |a| || j == |b|)
      invariant result + Merge(a[i..], b[j..]) == Merge(a, b)
    {
      MergeTakesA(a, b, i, j);
      assert (result + [a[i]]) + Merge(a[i + 1..], b[j..]) == result + Merge(a[i..], b[j..]);
      result := result + [a[i]];
      i := i + 1;
    }
    while j < |b|
      invariant i == |a| && 0 <= j <= |b|
      invariant result + Merge(a[i..], b[j..]) == Merge(a, b)
    {
      MergeTakesB(a, b, i, j);
      assert (result + [b[j]]) + Merge(a[i..], b[j + 1..]) == result + Merge(a[i..], b[j..]);
      result := result + [b[j]];
      j := j + 1;
    }
    assert a[i..] == [] && b[j..] == [];
    assert result + Merge(a[i..], b[j..]) == result;
    MergeLength(a, b);
    MergePermutes(a, b);
    if Ascending(a) && Ascending(b) {
      MergeAscending(a, b);
      forall v
        ensures Filter(result, EqualTo(v)) == Filter(a, EqualTo(v)) + Filter(b, EqualTo(v))
      {
        MergeStable(a, b, v);
      }
    }
  }
}
