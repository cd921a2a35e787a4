/** python/edge_cases.py: lambdas, a function applying a lambda argument,
    a lambda-returning factory, map, filter and sorted with lambdas,
    partial applications and a tuple of arithmetic lambdas.

    Numbers are integers; the float quotient of the divide lambda is not
    modelled, only whether it is None.
 */
module PyEdgeCases {
  import opened Outcomes
  import opened PyValues
  import opened SeqSpecs
  import opened Sorting
  import MathSpecs

  // ----- Lambdas -----

  /** lambda_sum: the sum of its two arguments. */
  function LambdaSum(x: int, y: int): (r: int)
    ensures r == Sum([x, y])
  {
    PairTotals(x, y);
    x + y
  }

  /** lambda_multiply: the product of its two arguments. */
  function LambdaMultiply(x: int, y: int): (r: int)
    ensures r == Product([x, y])
  {
    PairTotals(x, y);
    x * y
  }

  /** lambda_with_default: y is 10 unless given, so one argument adds ten. */
  function LambdaWithDefault(x: int, y: int := 10): (r: int)
    ensures r == LambdaSum(x, y)
  {
    x + y
  }

  /** lambda_with_docstring: x ** y. A natural exponent gives an int, 1 at 0
      and one more factor x per step; a negative exponent gives the float
      reciprocal of x^-y, and ZeroDivisionError when x is 0. */
  function LambdaWithDocstring(x: int, y: int): (r: Result<MathSpecs.PowerValue>)
    ensures r.Err? <==> x == 0 && y < 0
    ensures r.Err? ==> r.kind == ZeroDivisionError
    ensures y == 0 ==> r == Ok(MathSpecs.IntPower(1))
    ensures y > 0 ==> r.Ok? && r.value.IntPower?
                      && r.value.i == x * LambdaWithDocstring(x, y - 1).value.i
    ensures y < 0 && x != 0 ==> r.Ok? && MathSpecs.AsReal(r.value) * (MathSpecs.Pow(x, -y) as real) == 1.0
  {
    if y < 0 && x != 0 then
      MathSpecs.PyPowNegative(x, y);
      MathSpecs.PyPow(x, y)
    else
      MathSpecs.PyPow(x, y)
  }

  /** function_with_lambda_arg(func, x, y): func applied to x and y. */
  function FunctionWithLambdaArg<A, B, C>(func: (A, B) -> C, x: A, y: B): (r: C)
    ensures r == func(x, y)
  {
    func(x, y)
  }

  /** The source's own use of function_with_lambda_arg, generalised: applied
      to a subtracting lambda it undoes an addition, and applied to the
      tuple's add and subtract it gives back the first argument; applied to
      lambda_sum it ignores the argument order. */
  lemma LambdaArgApplies(a: int, b: int)
    ensures FunctionWithLambdaArg((x: int, y: int) => x - y, LambdaSum(a, b), b) == a
    ensures FunctionWithLambdaArg(GetMathFuncs().subtract, FunctionWithLambdaArg(GetMathFuncs().add, a, b), b) == a
    ensures FunctionWithLambdaArg(LambdaSum, a, b) == FunctionWithLambdaArg(LambdaSum, b, a)
  {
    var f := GetMathFuncs();
    assert f.add(a, b) == a + b;
    assert f.subtract(a + b, b) + b == a + b;
  }

  /** create_multiplier(factor): the lambda multiplying its argument by factor. */
  function CreateMultiplier(factor: int): (f: int -> int)
    ensures forall x :: f(x) == factor * x
  {
    x => x * factor
  }

  /** Multipliers compose by multiplying their factors, distribute over
      addition, and the factor 1 leaves its argument alone. */
  lemma MultipliersCompose(f1: int, f2: int, x: int, y: int)
    ensures CreateMultiplier(f1)(CreateMultiplier(f2)(x)) == CreateMultiplier(f1 * f2)(x)
    ensures CreateMultiplier(f1)(x + y) == CreateMultiplier(f1)(x) + CreateMultiplier(f1)(y)
    ensures CreateMultiplier(1)(x) == x
  {
    assert x * f2 * f1 == x * (f2 * f1);
  }

  // ----- map, filter and sorted -----

  /** square_all: each number squared, in order; no result is negative. */
  function SquareAll(numbers: seq<int>): (r: seq<int>)
    ensures |r| == |numbers|
    ensures forall k :: 0 <= k < |r| ==> r[k] == numbers[k] * numbers[k] && r[k] >= 0
  {
    assert forall x :: MathSpecs.Pow(x, 2) == x * x && x * x >= 0 by {
      forall x ensures MathSpecs.Pow(x, 2) == x * x && x * x >= 0 { Square(x); }
    }
    MapSeq(numbers, x => MathSpecs.Pow(x, 2))
  }

  lemma Square(x: int)
    ensures MathSpecs.Pow(x, 2) == x * x && x * x >= 0
  {
    assert MathSpecs.Pow(x, 2) == x * MathSpecs.Pow(x, 1);
    MathSpecs.PowEvenNonNegative(x, 2);
  }

  function IsPositive(x: int): bool { x > 0 }

  /** filter_positive: the numbers above zero, in their order; zero is
      dropped. */
  function FilterPositive(numbers: seq<int>): (r: seq<int>)
    ensures forall x :: x in r <==> x in numbers && x > 0
    ensures 0 !in r
    ensures forall rest :: Filter(numbers + rest, IsPositive) == r + Filter(rest, IsPositive)
  {
    FilterMembers(numbers, IsPositive);
    forall rest ensures Filter(numbers + rest, IsPositive) == Filter(numbers, IsPositive) + Filter(rest, IsPositive) {
      FilterConcat(numbers, rest, IsPositive);
    }
    Filter(numbers, IsPositive)
  }

  /** The sort key pair[1], as a number or a string. */
  function SecondKey(pair: seq<Value>): Key
  {
    if |pair| >= 2 && IsNumber(pair[1]) then NumKey(NumValue(pair[1]))
    else if |pair| >= 2 && pair[1].PyStr? then StrKey(pair[1].s)
    else NumKey(0)
  }

  /** Every pair has a second item. */
  predicate AllHaveSecond(pairs: seq<seq<Value>>)
  {
    forall i :: 0 <= i < |pairs| ==> |pairs[i]| >= 2
  }

  /** sorted compares keys only when there are two pairs or more, and then
      every second item must be comparable with every other. */
  predicate SecondsComparable(pairs: seq<seq<Value>>)
    requires AllHaveSecond(pairs)
  {
    |pairs| < 2
    || (forall i :: 0 <= i < |pairs| ==> IsNumber(pairs[i][1]))
    || (forall i :: 0 <= i < |pairs| ==> pairs[i][1].PyStr?)
  }

  /** sort_by_second_item: sorted computes every key before comparing, so a
      pair without a second item raises IndexError; keys that cannot be
      compared raise TypeError; otherwise the result is a stable permutation
      ordered by second item. */
  function SortBySecondItem(pairs: seq<seq<Value>>): (r: Result<seq<seq<Value>>>)
    ensures !AllHaveSecond(pairs) ==> r == Err(IndexError, "tuple index out of range")
    ensures AllHaveSecond(pairs) ==> (r.Err? <==> !SecondsComparable(pairs))
    ensures AllHaveSecond(pairs) && r.Err? ==> r.kind == TypeError
    ensures r.Ok? ==> multiset(r.value) == multiset(pairs)
    ensures r.Ok? ==> SortedBy(r.value, SecondKey, false)
    ensures r.Ok? ==> forall k :: Filter(r.value, HasKey(SecondKey, k)) == Filter(pairs, HasKey(SecondKey, k))
  {
    if !AllHaveSecond(pairs) then Err(IndexError, "tuple index out of range")
    else if !SecondsComparable(pairs) then Err(TypeError, "'<' not supported between instances")
    else
      SortBySorted(pairs, SecondKey, false);
      SortByStableAll(pairs, SecondKey, false);
      Ok(SortBy(pairs, SecondKey, false))
  }

  // ----- Partials -----

  /** add_five = partial(operator.add, 5): lambda_sum with 5 as its first
      argument. */
  function AddFive(x: int): (r: int)
    ensures r == LambdaSum(5, x)
  {
    5 + x
  }

  /** multiply_by_ten = partial(operator.mul, 10) */
  function MultiplyByTen(x: int): (r: int)
    ensures r == CreateMultiplier(10)(x)
  {
    10 * x
  }

  // ----- get_math_funcs -----

  /** The four lambdas of get_math_funcs. */
  datatype MathFuncs = MathFuncs(add: (int, int) -> int, subtract: (int, int) -> int,
                                 multiply: (int, int) -> int, divide: (int, int) -> Option<()>)

  /** get_math_funcs: add, subtract and multiply, and a divide that returns
      None for a zero divisor instead of raising. */
  function GetMathFuncs(): (f: MathFuncs)
    ensures forall a, b :: f.add(a, b) == a + b
    ensures forall a, b :: f.subtract(a, b) + b == a
    ensures forall a, b :: f.multiply(a, b) == b * a
    ensures forall a, b :: f.divide(a, b).None? <==> b == 0
  {
    MathFuncs((a: int, b: int) => a + b, (a: int, b: int) => a - b, (a: int, b: int) => a * b,
              (a: int, b: int) => if b != 0 then Some(()) else None)
  }

  /** The module's several spellings of the same arithmetic agree: the
      tuple's add and multiply are lambda_sum and lambda_multiply, the
      partials are those lambdas with a fixed first argument, and the tuple's
      subtract undoes its add. */
  lemma LambdasAgree(a: int, b: int)
    ensures GetMathFuncs().add(a, b) == LambdaSum(a, b) == LambdaSum(b, a)
    ensures GetMathFuncs().multiply(a, b) == LambdaMultiply(a, b) == LambdaMultiply(b, a)
    ensures AddFive(a) == GetMathFuncs().add(5, a)
    ensures MultiplyByTen(a) == LambdaMultiply(10, a)
    ensures GetMathFuncs().subtract(GetMathFuncs().add(a, b), b) == a
  {
    PairTotals(a, b);
    PairTotals(b, a);
    PairTotals(10, a);
    PairTotals(5, a);
  }
}
