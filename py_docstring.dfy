/** python/docstring_changes.py: functions whose docstrings change while
    their bodies stay: two constants, a validated dictionary, a formatted
    pair, a sum and a scaled list.
 */
module PyDocstring {
  import opened Outcomes
  import opened PyValues
  import opened SeqSpecs
  import opened Text

  /** function_with_simple_docstring */
  const FunctionWithSimpleDocstring: string := "Hello, world!"

  /** function_with_complex_docstring: ValueError when a or b is negative;
      otherwise "a" and "b", and "c" exactly when c is not None. */
  function FunctionWithComplexDocstring(a: int, b: int, c: Value := PyNone): (r: Result<Record>)
    ensures r.Err? <==> a < 0 || b < 0
    ensures r.Err? ==> r == Err(ValueError, "Parameters must be non-negative")
    ensures r.Ok? ==> "a" in r.value && "b" in r.value && r.value["a"] == PyInt(a) && r.value["b"] == PyInt(b)
    ensures r.Ok? ==> ("c" in r.value <==> c != PyNone) && r.value.Keys <= {"a", "b", "c"}
    ensures r.Ok? && "c" in r.value ==> r.value["c"] == c
  {
    if a < 0 || b < 0 then Err(ValueError, "Parameters must be non-negative")
    else
      var result := map["a" := PyInt(a), "b" := PyInt(b)];
      Ok(if c != PyNone then result["c" := c] else result)
  }

  /** function_with_epydoc_docstring(param1, param2) with an int and a str
      or None: str(param1), a colon and a space, str(param2). */
  function FunctionWithEpydocDocstring(param1: int, param2: Option<string>): (r: string)
    ensures var s1 := IntToString(param1);
            var s2 := if param2.Some? then param2.value else "None";
            |r| == |s1| + 2 + |s2| && r[..|s1|] == s1 && r[|s1|..|s1| + 2] == ": " && r[|s1| + 2..] == s2
  {
    IntToString(param1) + ": " + (if param2.Some? then param2.value else "None")
  }

  /** function_with_numpy_docstring: the sum of its two arguments. */
  function FunctionWithNumpyDocstring(x: int, y: int): (r: int)
    ensures r == Sum([x, y])
  {
    PairTotals(x, y);
    x + y
  }

  /** function_with_google_docstring(data, scale): each item times scale, in
      order; the default scale 1.0 leaves every value as it was. */
  function FunctionWithGoogleDocstring(data: seq<int>, scale: int := 1): (r: seq<int>)
    ensures |r| == |data|
    ensures forall k :: 0 <= k < |data| ==> r[k] == data[k] * scale
    ensures scale == 1 ==> r == data
  {
    MapSeq(data, (item: int) => item * scale)
  }

  /** function_with_minimal_docstring */
  const FunctionWithMinimalDocstring: int := 42
}
