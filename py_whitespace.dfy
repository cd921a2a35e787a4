/** python/whitespace_changes.py: a sum, a product, a rendering of three
    numbers and an ordered pair, written in unusual layouts.
 */
module PyWhitespace {
  import opened Text
  import SeqSpecs

  /** function_with_normal_whitespace: a + b, then c added, which is the
      sum of the three arguments. */
  function FunctionWithNormalWhitespace(a: int, b: int, c: int): (r: int)
    ensures r == SeqSpecs.Sum([a, b, c])
  {
    SeqSpecs.TripleTotals(a, b, c);
    var result := a + b;
    result + c
  }

  /** function_with_compact_whitespace: the product of the three arguments. */
  function FunctionWithCompactWhitespace(a: int, b: int, c: int): (r: int)
    ensures r == SeqSpecs.Product([a, b, c])
  {
    SeqSpecs.TripleTotals(a, b, c);
    a * b * c
  }

  /** function_with_excessive_whitespace: the three numbers joined by two
      spaces each, built one separator and one part at a time; splitting at spaces recovers them, with an empty part for
      each doubled space. */
  function FunctionWithExcessiveWhitespace(a: int, b: int, c: int): (r: string)
    ensures Split(r, ' ') == [IntToString(a), "", IntToString(b), "", IntToString(c)]
  {
    var sa, sb, sc := IntToString(a), IntToString(b), IntToString(c);
    NoSpaceInNumber(a);
    NoSpaceInNumber(b);
    NoSpaceInNumber(c);
    SplitNoSep(sa, ' ');
    var x1 := sa + [' '] + "";
    SplitAppendPart(sa, "", ' ');
    var x2 := x1 + [' '] + sb;
    SplitAppendPart(x1, sb, ' ');
    var x3 := x2 + [' '] + "";
    SplitAppendPart(x2, "", ' ');
    var x4 := x3 + [' '] + sc;
    SplitAppendPart(x3, sc, ' ');
    assert [sa] + [""] + [sb] + [""] + [sc] == [sa, "", sb, "", sc];
    x4
  }

  /** The decimal rendering of an integer has no space. */
  lemma NoSpaceInNumber(i: int)
    ensures ' ' !in IntToString(i)
  {
    var n := if i < 0 then -i else i;
    assert AllDigits(NatToString(n));
    if i < 0 {
      assert IntToString(i) == "-" + NatToString(n);
    }
  }

  /** The result of function_with_unusual_indentation. */
  datatype Ordered = Ordered(larger: int, smaller: int)

  /** function_with_unusual_indentation: the larger and the smaller of a and
      b. The dictionary becomes a pair of named fields. */
  function FunctionWithUnusualIndentation(a: int, b: int): (r: Ordered)
    ensures r.larger >= r.smaller
    ensures multiset{r.larger, r.smaller} == multiset{a, b}
    ensures r.larger >= a && r.larger >= b && r.smaller <= a && r.smaller <= b
  {
    if a > b then Ordered(a, b) else Ordered(b, a)
  }
}
