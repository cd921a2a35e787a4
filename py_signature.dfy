/** python/signature_changes.py: arithmetic with two, four and two
    parameters, a greeting with default arguments, string repetition, and
    two functions that pack their arguments into a dictionary.
 */
module PySignature {
  import opened PyValues
  import opened Text
  import SeqSpecs

  /** function_for_param_addition: the sum of its two arguments. */
  function FunctionForParamAddition(a: int, b: int): (r: int)
    ensures r == SeqSpecs.Sum([a, b])
  {
    SeqSpecs.PairTotals(a, b);
    a + b
  }

  /** function_for_param_removal */
  function FunctionForParamRemoval(a: int, b: int, c: int, d: int): (r: int)
    ensures r == FunctionForParamAddition(a, b) + FunctionForParamAddition(c, d)
  {
    a + b + c + d
  }

  /** function_for_param_rename: the product of its two arguments. */
  function FunctionForParamRename(firstNum: int, secondNum: int): (r: int)
    ensures r == SeqSpecs.Product([firstNum, secondNum])
  {
    SeqSpecs.PairTotals(firstNum, secondNum);
    firstNum * secondNum
  }

  /** function_for_default_param_change: greeting, a comma and a space,
      the name, then the punctuation; "Hello" and "!" unless given. */
  function FunctionForDefaultParamChange(name: string, greeting: string := "Hello", punctuation: string := "!"): (r: string)
    ensures |r| == |greeting| + 2 + |name| + |punctuation|
    ensures r[..|greeting|] == greeting && r[|greeting|..|greeting| + 2] == ", "
    ensures r[|greeting| + 2..|greeting| + 2 + |name|] == name && r[|greeting| + 2 + |name|..] == punctuation
  {
    greeting + ", " + name + punctuation
  }

  /** function_with_type_annotations(a, b): b * a, the string b repeated a
      times, empty for a <= 0: a string of a * |b| characters whose position p
      holds b[p % |b|]. */
  function FunctionWithTypeAnnotations(a: int, b: string): (r: string)
    ensures a <= 0 ==> r == []
    ensures a > 0 ==> |r| == a * |b|
    ensures forall p :: 0 <= p < |r| ==> |b| > 0 && r[p] == b[p % |b|]
  {
    RepeatAll(b, a);
    Repeat(b, a)
  }

  /** function_with_args_kwargs: a dictionary with exactly the keys "args",
      holding the positional arguments (a tuple, here a list), and "kwargs",
      holding the keyword arguments. */
  function FunctionWithArgsKwargs(args: seq<Value>, kwargs: map<string, Value>): (r: Record)
    ensures r.Keys == {"args", "kwargs"}
    ensures r["args"] == PyList(args) && r["kwargs"] == PyDict(kwargs)
  {
    map["args" := PyList(args), "kwargs" := PyDict(kwargs)]
  }

  /** function_with_multiple_signature_changes: "a" and "b" always, and "c"
      exactly when c is not None. */
  function FunctionWithMultipleSignatureChanges(a: Value, b: Value, c: Value := PyNone): (r: Record)
    ensures "a" in r && "b" in r && r["a"] == a && r["b"] == b
    ensures "c" in r <==> c != PyNone
    ensures "c" in r ==> r["c"] == c
    ensures r.Keys <= {"a", "b", "c"}
  {
    var result := map["a" := a, "b" := b];
    if c != PyNone then result["c" := c] else result
  }
}
