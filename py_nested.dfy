/** python/nested_functions.py: closures over an enclosing variable, a
    counter whose closures share one mutable count, map/filter/reduce over a
    sequence, and three levels of nested functions.

    A closure becomes a Dafny function value; the counter's shared nonlocal
    count becomes the field of a Counter object. Numbers are integers.
 */
module PyNested {
  import opened PyValues
  import opened SeqSpecs
  import MathSpecs
  import Outcomes

  /** outer_function_simple: the inner closure adds x to its argument and is
      applied to 10. */
  function OuterFunctionSimple(x: int): (r: int)
    ensures r == CreateAdder(x)(10)
  {
    var inner := (y: int) => x + y;
    inner(10)
  }

  // ----- create_counter -----

  /** create_counter: the closures increment, decrement, get_count and reset
      close over one count, which starts at 0. */
  class Counter {
    var count: int

    constructor ()
      ensures count == 0
    {
      count := 0;
    }

    /** increment: the count rises by one and the new count is returned. */
    method Increment() returns (r: int)
      modifies this
      ensures count == old(count) + 1 && r == count
    {
      count := count + 1;
      r := count;
    }

    /** decrement: the count falls by one and the new count is returned. */
    method Decrement() returns (r: int)
      modifies this
      ensures count == old(count) - 1 && r == count
    {
      count := count - 1;
      r := count;
    }

    /** get_count: the current count; nothing changes. */
    method GetCount() returns (r: int)
      ensures r == count
    {
      r := count;
    }

    /** reset: the count is 0 again, and 0 is returned. */
    method Reset() returns (r: int)
      modifies this
      ensures count == 0 && r == 0
    {
      count := 0;
      r := count;
    }
  }

  // ----- Closures -----

  /** create_adder(x): the function adding x to its argument. */
  function CreateAdder(x: int): (adder: int -> int)
    ensures forall y :: adder(y) == x + y
  {
    y => x + y
  }

  /** create_multiplier(x): the function multiplying its argument by x. */
  function CreateMultiplier(x: int): (multiplier: int -> int)
    ensures forall y :: multiplier(y) == x * y
  {
    y => x * y
  }

  /** create_power_function(exponent): the function computing base ** exponent,
      which for a negative exponent is a float, or ZeroDivisionError at base 0. */
  function CreatePowerFunction(exponent: int): (power: int -> Outcomes.Result<MathSpecs.PowerValue>)
    ensures forall b :: power(b) == MathSpecs.PyPow(b, exponent)
  {
    b => MathSpecs.PyPow(b, exponent)
  }

  /** Adders compose by adding their amounts, and adding -x undoes adding x. */
  lemma AddersCompose(x1: int, x2: int, y: int)
    ensures CreateAdder(x1)(CreateAdder(x2)(y)) == CreateAdder(x1 + x2)(y)
    ensures CreateAdder(-x1)(CreateAdder(x1)(y)) == y
  {
  }

  /** A power function raises exactly for base 0 and a negative exponent,
      and then raises ZeroDivisionError. */
  lemma PowerFunctionRaises(e: int, b: int)
    ensures CreatePowerFunction(e)(b).Err? <==> b == 0 && e < 0
    ensures CreatePowerFunction(e)(b).Err? ==> CreatePowerFunction(e)(b).kind == Outcomes.ZeroDivisionError
  {
  }

  /** The power functions of two natural exponents give ints and multiply to
      the power function of their sum. */
  lemma PowerFunctionsMultiply(e1: nat, e2: nat, b: int)
    ensures CreatePowerFunction(e1)(b).Ok? && CreatePowerFunction(e1)(b).value.IntPower?
    ensures CreatePowerFunction(e2)(b).Ok? && CreatePowerFunction(e2)(b).value.IntPower?
    ensures CreatePowerFunction(e1 + e2)(b) ==
              Outcomes.Ok(MathSpecs.IntPower(CreatePowerFunction(e1)(b).value.i * CreatePowerFunction(e2)(b).value.i))
  {
    MathSpecs.PowAdd(b, e1, e2);
  }

  /** For a non-zero base, the power functions of e and -e are reciprocal:
      a negative exponent gives the float 1 / b^-e. */
  lemma PowerFunctionsInverse(e: int, b: int)
    requires b != 0
    ensures CreatePowerFunction(e)(b).Ok? && CreatePowerFunction(-e)(b).Ok?
    ensures MathSpecs.AsReal(CreatePowerFunction(e)(b).value) * MathSpecs.AsReal(CreatePowerFunction(-e)(b).value) == 1.0
  {
    if e < 0 {
      MathSpecs.PyPowNegative(b, e);
    } else if e > 0 {
      MathSpecs.PyPowNegative(b, -e);
    }
  }

  /** The second power function is the square and the third the cube, both ints. */
  lemma SquareAndCube(b: int)
    ensures CreatePowerFunction(2)(b) == Outcomes.Ok(MathSpecs.IntPower(CreateMultiplier(b)(b)))
    ensures CreatePowerFunction(3)(b) == Outcomes.Ok(MathSpecs.IntPower(b * b * b))
  {
    assert MathSpecs.Pow(b, 2) == b * MathSpecs.Pow(b, 1);
    assert MathSpecs.Pow(b, 3) == b * MathSpecs.Pow(b, 2);
  }

  // ----- create_sequence_processor -----

  /** The step of reduce_sequence: an accumulator that is None is replaced by
      the item; any other accumulator is combined with it. */
  function ReduceStep(func: (Value, Value) -> Value, acc: Value, item: Value): (r: Value)
    ensures acc == PyNone ==> r == item
    ensures acc != PyNone ==> r == func(acc, item)
  {
    if acc == PyNone then item else func(acc, item)
  }

  /** reduce_sequence(sequence, func, initial), item by item from the first. */
  function Reduce(s: seq<Value>, func: (Value, Value) -> Value, acc: Value): Value
    decreases |s|
  {
    if s == [] then acc else Reduce(s[1..], func, ReduceStep(func, acc, s[0]))
  }

  /** The reference left fold: func applied to acc and each item in turn. */
  function FoldLeft(s: seq<Value>, func: (Value, Value) -> Value, acc: Value): Value
    decreases |s|
  {
    if s == [] then acc else FoldLeft(s[1..], func, func(acc, s[0]))
  }

  /** reduce_sequence: the loop over the items, whose result is Reduce. */
  method ReduceSequence(s: seq<Value>, func: (Value, Value) -> Value, initial: Value := PyNone) returns (result: Value)
    ensures result == Reduce(s, func, initial)
    ensures s == [] ==> result == initial
  {
    result := initial;
    for i := 0 to |s|
      invariant Reduce(s[i..], func, result) == Reduce(s, func, initial)
    {
      assert s[i..][1..] == s[i + 1..];
      result := ReduceStep(func, result, s[i]);
    }
  }

  /** Once the accumulator is not None and func never returns None, the
      reduction is the plain left fold. */
  lemma {:induction false} ReduceIsFold(s: seq<Value>, func: (Value, Value) -> Value, acc: Value)
    requires acc != PyNone
    requires forall a, b :: func(a, b) != PyNone
    ensures Reduce(s, func, acc) == FoldLeft(s, func, acc)
    decreases |s|
  {
    if s != [] {
      ReduceIsFold(s[1..], func, func(acc, s[0]));
    }
  }

  /** Without an initial value, the first item (when not None) seeds the fold
      over the rest. */
  lemma ReduceWithoutInitial(s: seq<Value>, func: (Value, Value) -> Value)
    requires |s| > 0 && s[0] != PyNone
    requires forall a, b :: func(a, b) != PyNone
    ensures Reduce(s, func, PyNone) == FoldLeft(s[1..], func, s[0])
  {
    ReduceIsFold(s[1..], func, s[0]);
  }

  /** A func result of None resets the reduction: whatever came before, the
      next item starts it afresh. */
  lemma {:induction false} ReduceNoneResets(s: seq<Value>, func: (Value, Value) -> Value, acc: Value, i: int)
    requires 0 <= i < |s|
    requires Reduce(s[..i], func, acc) == PyNone
    ensures Reduce(s[..i + 1], func, acc) == s[i]
    decreases i
  {
    if i > 0 {
      assert s[..i][1..] == s[1..][..i - 1];
      assert s[..i + 1][1..] == s[1..][..i];
      ReduceNoneResets(s[1..], func, ReduceStep(func, acc, s[0]), i - 1);
    }
  }

  /** The integer sum used in the demonstration: reducing [1, 2, 3, 4, 5] with
      + and no initial value gives 15. */
  function IntAdd(a: Value, b: Value): Value
  {
    if a.PyInt? && b.PyInt? then PyInt(a.i + b.i) else PyNone
  }

  /** An int as a Python value. */
  function AsValue(x: int): Value { PyInt(x) }

  /** Reducing ints with IntAdd from an int accumulator adds their sum to it. */
  lemma {:induction false} ReduceAddsSum(s: seq<int>, a: int)
    ensures Reduce(MapSeq(s, AsValue), IntAdd, PyInt(a)) == PyInt(a + Sum(s))
    decreases |s|
  {
    if s != [] {
      var t := MapSeq(s, AsValue);
      assert t[1..] == MapSeq(s[1..], AsValue);
      ReduceAddsSum(s[1..], a + s[0]);
      SumFront(s);
    }
  }

  /** Reducing any non-empty sequence of ints with IntAdd and no initial
      value gives their sum, as Python's sum does. */
  lemma ReduceSums(s: seq<int>)
    requires |s| > 0
    ensures Reduce(MapSeq(s, AsValue), IntAdd, PyNone) == PyInt(Sum(s))
  {
    var t := MapSeq(s, AsValue);
    ReduceFirstItem(t, IntAdd);
    assert t[1..] == MapSeq(s[1..], AsValue);
    ReduceAddsSum(s[1..], s[0]);
    SumFront(s);
  }

  /** Without an initial value the first item starts the reduction. */
  lemma ReduceFirstItem(t: seq<Value>, func: (Value, Value) -> Value)
    requires |t| > 0
    ensures Reduce(t, func, PyNone) == Reduce(t[1..], func, t[0])
  {
  }

  /** map_sequence: func applied to each element, the length kept. */
  function MapSequence<A, B>(s: seq<A>, func: A -> B): (r: seq<B>)
    ensures |r| == |s|
    ensures forall k :: 0 <= k < |s| ==> r[k] == func(s[k])
  {
    MapSeq(s, func)
  }

  /** filter_sequence: the elements satisfying the predicate, in order. */
  function FilterSequence<T(!new)>(s: seq<T>, pred: T -> bool): (r: seq<T>)
    ensures forall x :: x in r <==> x in s && pred(x)
    ensures forall t :: Filter(s + t, pred) == r + Filter(t, pred)
  {
    FilterMembers(s, pred);
    forall t ensures Filter(s + t, pred) == Filter(s, pred) + Filter(t, pred) {
      FilterConcat(s, t, pred);
    }
    Filter(s, pred)
  }

  // ----- function_with_multiple_levels -----

  /** function_with_multiple_levels(): level1(x) returns level2, and level2(y)
      returns level3, which adds x, y and its own argument. */
  function FunctionWithMultipleLevels(): (level1: int -> int -> int -> int)
    ensures forall x, y, z :: level1(x)(y)(z) == x + y + z
  {
    x => y => z => x + y + z
  }
}
