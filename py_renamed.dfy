/** python/renamed_functions.py: a sum, a sum with an optional doubled
    term, a threshold filter that doubles what it keeps, a constant message
    and a text normaliser.

    The items and the threshold of complex_function_with_old_name are exact
    rationals: doubling and comparing a float are exact, so only overflow to
    infinity and NaN are lost.
 */
module PyRenamed {
  import opened SeqSpecs
  import opened Text

  /** new_name_simple_function: the sum of its two arguments. */
  function NewNameSimpleFunction(x: int, y: int): (r: int)
    ensures r == Sum([x, y])
  {
    PairTotals(x, y);
    x + y
  }

  /** renamed_function_with_body_changes: c * 2 is added only when c is not
      zero, which is the same as always adding it. */
  function RenamedFunctionWithBodyChanges(a: int, b: int, c: int := 0): (r: int)
    ensures r == a + b + 2 * c
    ensures c == 0 ==> r == a + b
  {
    var result := a + b;
    if c != 0 then result + c * 2 else result
  }

  /** The items complex_function_with_old_name keeps. */
  function Above(threshold: real): real -> bool
  {
    item => item > threshold
  }

  function Double(item: real): real { item * 2.0 }

  /** complex_function_with_old_name: every item above the threshold,
      doubled, in order; an item equal to the threshold is dropped. */
  method ComplexFunctionWithOldName(data: seq<real>, threshold: real := 0.5) returns (result: seq<real>)
    ensures result == MapSeq(Filter(data, Above(threshold)), Double)
    ensures |result| <= |data|
    ensures forall x :: x in result <==> exists item :: item in data && item > threshold && x == 2.0 * item
  {
    var p := Above(threshold);
    result := [];
    for i := 0 to |data|
      invariant result == MapSeq(Filter(data[..i], p), Double)
    {
      ghost var f := Filter(data[..i], p);
      FilterSnoc(data, i, p);
      assert p(data[i]) <==> data[i] > threshold;
      if data[i] > threshold {
        assert Filter(data[..i + 1], p) == f + [data[i]];
        MapSeqSnoc(f, data[i], Double);
        result := result + [data[i] * 2.0];
      } else {
        assert Filter(data[..i + 1], p) == f + [];
      }
    }
    assert data[..|data|] == data;
    DoubledAbove(data, threshold);
  }

  /** The doubled items above the threshold are the items above it, doubled:
      no more values than items, and each value twice some item above the
      threshold. */
  lemma DoubledAbove(data: seq<real>, threshold: real)
    ensures |MapSeq(Filter(data, Above(threshold)), Double)| <= |data|
    ensures forall x :: x in MapSeq(Filter(data, Above(threshold)), Double)
               <==> exists item :: item in data && item > threshold && x == 2.0 * item
  {
    var f := Filter(data, Above(threshold));
    var result := MapSeq(f, Double);
    FilterMembers(data, Above(threshold));
    forall x | x in result
      ensures exists item :: item in data && item > threshold && x == 2.0 * item
    {
      var k :| 0 <= k < |result| && result[k] == x;
      assert f[k] in f;
    }
    forall x | exists item :: item in data && item > threshold && x == 2.0 * item
      ensures x in result
    {
      var item :| item in data && item > threshold && x == 2.0 * item;
      var k :| 0 <= k < |f| && f[k] == item;
      assert result[k] == x;
    }
  }

  /** helper_function_old */
  const HelperFunctionOld: string := "I am a helper function"

  /** utility_function_original: text.strip().lower(). */
  function UtilityFunctionOriginal(text: string): (r: string)
    ensures |r| <= |text|
    ensures r != [] ==> !IsPyWhitespace(r[0]) && !IsPyWhitespace(r[|r| - 1])
  {
    var s := Strip(text, IsPyWhitespace);
    StripBounds(text, IsPyWhitespace);
    LowerKeepsEnds(s);
    Lower(s)
  }

  /** Lower-casing maps whitespace to whitespace and nothing else to it. */
  lemma LowerKeepsWhitespace(c: char)
    ensures IsPyWhitespace(AsciiLowerChar(c)) <==> IsPyWhitespace(c)
  {
  }

  /** Lower-casing keeps whether the first and the last character are whitespace. */
  lemma LowerKeepsEnds(s: string)
    ensures s != [] ==> (IsPyWhitespace(Lower(s)[0]) <==> IsPyWhitespace(s[0]))
    ensures s != [] ==> (IsPyWhitespace(Lower(s)[|s| - 1]) <==> IsPyWhitespace(s[|s| - 1]))
  {
    if s != [] {
      LowerKeepsWhitespace(s[0]);
      LowerKeepsWhitespace(s[|s| - 1]);
    }
  }

  /** A string that neither starts nor ends with whitespace is not changed
      by strip(). */
  lemma StripTrimmed(s: string, ws: char -> bool)
    requires s != [] ==> !ws(s[0]) && !ws(s[|s| - 1])
    ensures Strip(s, ws) == s
  {
    if s != [] {
      assert LeadLen(s, ws) == 0;
      assert TrailLen(s, ws) == 0;
      assert s[0..] == s;
    }
  }

  /** Normalising twice is normalising once. */
  lemma UtilityFunctionIdempotent(text: string)
    ensures UtilityFunctionOriginal(UtilityFunctionOriginal(text)) == UtilityFunctionOriginal(text)
  {
    var r := UtilityFunctionOriginal(text);
    if r != [] {
      LowerKeepsWhitespace(r[0]);
      LowerKeepsWhitespace(r[|r| - 1]);
    }
    StripTrimmed(r, IsPyWhitespace);
    LowerIdempotent(Strip(text, IsPyWhitespace));
  }
}
