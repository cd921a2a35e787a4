/** python/basic_functions.py: integer arithmetic, division and averaging
    with their error cases, a greeting and a palindrome test.

    Numbers are integers; the float results of divide and
    calculate_average are not modelled, only their error cases.
 */
module PyBasic {
  import opened Outcomes
  import opened SeqSpecs
  import opened Text

  /** subtract(a, b): the difference, which added to b gives a back. */
  function Subtract(a: int, b: int): (r: int)
    ensures r + b == a
  {
    a - b
  }

  /** multiply(a, b) computes b * a: the product of a and b, in this order. */
  function Multiply(a: int, b: int): (r: int)
    ensures r == Product([a, b])
  {
    PairTotals(a, b);
    b * a
  }

  /** subtract and multiply as the arithmetic they stand for: subtracting b
      undoes adding it, the difference changes sign with the arguments,
      multiply does not depend on the argument order and distributes over
      subtract, and a product is a zero divisor for divide exactly when one
      of its factors is. */
  lemma ArithmeticLaws(a: int, b: int, c: int)
    ensures Subtract(Sum([a, b]), b) == a && Subtract(a, a) == 0
    ensures Subtract(a, b) == -Subtract(b, a)
    ensures Multiply(a, b) == Multiply(b, a)
    ensures Multiply(Subtract(a, b), c) == Subtract(Multiply(a, c), Multiply(b, c))
    ensures Divide(c, Multiply(a, b)).Fail? <==> Divide(c, a).Fail? || Divide(c, b).Fail?
  {
    PairTotals(a, b);
    assert Multiply(Subtract(a, b), c) == c * (a - b) == c * a - c * b;
    if a != 0 && b != 0 {
      assert a * b != 0;
    }
  }

  /** divide(a, b): ZeroDivisionError exactly for a zero divisor. The
      quotient is a float and is not modelled. */
  function Divide(a: int, b: int): (o: Outcome)
    ensures o.Fail? <==> b == 0
    ensures o.Fail? ==> o == Fail(ZeroDivisionError, "Cannot divide by zero")
  {
    if b == 0 then Fail(ZeroDivisionError, "Cannot divide by zero") else Pass
  }

  /** calculate_average: ValueError exactly for an empty list. The mean is a
      float and is not modelled. */
  function CalculateAverage(numbers: seq<int>): (o: Outcome)
    ensures o.Fail? <==> numbers == []
    ensures o.Fail? ==> o == Fail(ValueError, "Cannot calculate average of empty list")
  {
    if numbers == [] then Fail(ValueError, "Cannot calculate average of empty list") else Pass
  }

  /** greet(name): the name between "Greetings, " and "! How are you
      today?", and recoverable from the message. */
  function Greet(name: string): (r: string)
    ensures |r| == 11 + |name| + 20
    ensures r[..11] == "Greetings, " && r[11 + |name|..] == "! How are you today?"
    ensures r[11..11 + |name|] == name
  {
    "Greetings, " + name + "! How are you today?"
  }

  /** The text is_palindrome compares: lower-cased, with the spaces removed
      and every other character, punctuation included, kept. */
  function Cleaned(text: string): (c: string)
    ensures ' ' !in c
    ensures |c| <= |text|
  {
    FilterMembers(Lower(text), NotSpace);
    Filter(Lower(text), NotSpace)
  }

  function NotSpace(c: char): bool { c != ' ' }

  /** is_palindrome: the cleaned text equals its reversal, that is every
      position matches its mirror. */
  function IsPalindromeText(text: string): (b: bool)
    ensures b <==> forall i :: 0 <= i < |Cleaned(text)| ==> Cleaned(text)[i] == Cleaned(text)[|Cleaned(text)| - 1 - i]
  {
    var c := Cleaned(text);
    PalindromeIffHalfMirror(c);
    ReverseMirror(c);
    c == Reverse(c)
  }

  /** Removing the one space between two space-free words joins them. */
  lemma FilterSpaced(x: string, y: string)
    requires ' ' !in x && ' ' !in y
    ensures Filter(x + " " + y, NotSpace) == x + y
  {
    FilterConcat(x + " ", y, NotSpace);
    FilterConcat(x, " ", NotSpace);
    FilterExtremes(x, NotSpace);
    FilterExtremes(y, NotSpace);
    FilterExtremes(" ", NotSpace);
  }

  /** Lower-casing distributes over concatenation. */
  lemma LowerConcat(x: string, y: string)
    ensures Lower(x + y) == Lower(x) + Lower(y)
  {
  }

  /** Lower-casing neither makes nor removes a space. */
  lemma LowerSpaces(s: string)
    ensures ' ' in Lower(s) <==> ' ' in s
  {
    if ' ' in Lower(s) {
      var k :| 0 <= k < |s| && Lower(s)[k] == ' ';
      assert s[k] == ' ';
    }
    if ' ' in s {
      var k :| 0 <= k < |s| && s[k] == ' ';
      assert Lower(s)[k] == ' ';
    }
  }

  /** Cleaning works character by character: a space is dropped, every
      other character is lower-cased and kept in place. */
  lemma CleanedRemovesOnlySpaces(x: string, y: string, c: char)
    ensures Cleaned(x + y) == Cleaned(x) + Cleaned(y)
    ensures Cleaned([c]) == if c == ' ' then [] else [AsciiLowerChar(c)]
  {
    LowerConcat(x, y);
    FilterConcat(Lower(x), Lower(y), NotSpace);
    assert Lower([c]) == [AsciiLowerChar(c)];
    assert [AsciiLowerChar(c)][..0] == [];
  }

  /** For two space-free words, the one space between them is ignored: the
      text is a palindrome exactly when the lower-cased words, joined, are. */
  lemma SpaceBetweenWordsIgnored(x: string, y: string)
    requires ' ' !in x && ' ' !in y
    ensures IsPalindromeText(x + " " + y) <==> IsPalindrome(Lower(x + y))
  {
    LowerConcat(x + " ", y);
    LowerConcat(x, " ");
    LowerConcat(x, y);
    assert Lower(" ") == " ";
    LowerSpaces(x);
    LowerSpaces(y);
    FilterSpaced(Lower(x), Lower(y));
    assert Cleaned(x + " " + y) == Lower(x + y);
  }
}
