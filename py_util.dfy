/** python/util_functions.py: a recursive factorial and the 6k-1 / 6k+1 prime
    test on Python's unbounded integers. */
module PyUtil {
  import MathSpecs

  /** calculate_factorial: 1 for every n <= 1, negative numbers included, and
      n * calculate_factorial(n - 1) above that, which is n!. */
  function CalculateFactorial(n: int): (r: nat)
    ensures n <= 1 ==> r == 1
    ensures n >= 0 ==> r == MathSpecs.Fact(n)
    decreases n
  {
    if n <= 1 then
      assert n == 0 || n == 1 ==> MathSpecs.Fact(n) == 1 by {
        assert MathSpecs.Fact(0) == 1;
      }
      1
    else n * CalculateFactorial(n - 1)
  }

  /** is_prime: the small cases, the factors 2 and 3, then a while loop over
      i = 5, 11, 17, ... testing i and i + 2 while i * i <= num. */
  method IsPrime(num: int) returns (b: bool)
    ensures b <==> MathSpecs.IsPrime(num)
  {
    MathSpecs.SmallPrimes();
    if num <= 1 {
      return false;
    }
    if num <= 3 {
      return true;
    }
    if num % 2 == 0 || num % 3 == 0 {
      MathSpecs.SmallFactorsExcludePrime(num);
      return false;
    }
    MathSpecs.NoDivisorBelowFive(num);
    var i := 5;
    while i * i <= num
      invariant i >= 5 && i % 6 == 5
      invariant forall d :: 1 < d < i ==> !MathSpecs.Divides(d, num)
      decreases num - i
    {
      MathSpecs.TrialStep(num, i);
      if num % i == 0 {
        return false;
      }
      if num % (i + 2) == 0 {
        return false;
      }
      i := i + 6;
    }
    MathSpecs.NoDivisorBelowRootIsPrime(num, i);
    return true;
  }
}
