/** go/basic_functions.go: primality, a factorial in wrapping `int64`
    arithmetic, rune-wise reversal, a palindrome test over letters and digits,
    the maximum of a slice, person records and their filtering, a string sort
    and a word count.

    A Go string is modelled as its sequence of runes. Go's Unicode tables
    (unicode.IsLetter, unicode.IsDigit, unicode.ToLower) are not modelled:
    IsPalindrome takes the classification and the case mapping as parameters.
 */
module GoBasic {
  import opened Outcomes
  import MathSpecs
  import opened SeqSpecs
  import opened Sorting
  import opened Text

  /** The largest trial divisor of the 6k-1 sequence whose square fits in an
      int64: its square is below 2^63 and the next one's is not. */
  const LAST_EXACT: int := 3037000499

  /** IsPrime as written: the 6k-1 / 6k+1 trial division of the other
      samples, with the guard `i*i <= n` evaluated in int64. Once i passes
      LAST_EXACT the square wraps around, to a negative number first, so for
      n >= LAST_EXACT^2 the guard no longer stops the loop at the square root
      of n. The answer True is still always right, and every answer is right
      below LAST_EXACT^2; above it a prime can be reported composite when i or
      i + 2 reaches n. The sums i + 2 and i + 6 never exceed n, so they do not
      wrap. */
  method IsPrime(n: int) returns (b: bool)
    requires MathSpecs.IsInt64(n)
    ensures b ==> MathSpecs.IsPrime(n)
    ensures n < LAST_EXACT * LAST_EXACT ==> (b <==> MathSpecs.IsPrime(n))
  {
    MathSpecs.SmallPrimes();
    if n <= 1 {
      return false;
    }
    if n <= 3 {
      return true;
    }
    if n % 2 == 0 || n % 3 == 0 {
      MathSpecs.SmallFactorsExcludePrime(n);
      return false;
    }
    MathSpecs.NoDivisorBelowFive(n);
    var i := 5;
    while MathSpecs.Wrap64(i * i) <= n
      invariant 5 <= i <= n && i % 6 == 5
      invariant forall d :: 1 < d < i ==> !MathSpecs.Divides(d, n)
      invariant n < LAST_EXACT * LAST_EXACT ==> i <= LAST_EXACT
      decreases n - i
    {
      WrappedTrialStep(n, i);
      if n % i == 0 {
        return false;
      }
      if n % (i + 2) == 0 {
        return false;
      }
      i := i + 6;
    }
    WrappedGuardExit(n, i);
    MathSpecs.NoDivisorBelowRootIsPrime(n, i);
    return true;
  }

  /** One pass of the loop as written at i, where the wrapped guard held: a
      divisor i or i + 2 shows n composite whenever n is below LAST_EXACT^2,
      and otherwise the next trial divisor i + 6 is at most n, no divisor lies
      below it, and it stays within LAST_EXACT when n is below LAST_EXACT^2. */
  lemma WrappedTrialStep(n: int, i: int)
    requires MathSpecs.IsInt64(n) && n > 3 && !MathSpecs.Divides(2, n) && !MathSpecs.Divides(3, n)
    requires 5 <= i <= n && i % 6 == 5
    requires forall d :: 1 < d < i ==> !MathSpecs.Divides(d, n)
    requires MathSpecs.Wrap64(i * i) <= n
    requires n < LAST_EXACT * LAST_EXACT ==> i <= LAST_EXACT
    ensures n % i != 0 ==> i + 2 <= n
    ensures n < LAST_EXACT * LAST_EXACT && n % i == 0 ==> !MathSpecs.IsPrime(n)
    ensures n < LAST_EXACT * LAST_EXACT && n % (i + 2) == 0 ==> !MathSpecs.IsPrime(n)
    ensures n % i != 0 && n % (i + 2) != 0 ==>
              i + 6 <= n && (i + 6) % 6 == 5
              && (forall d :: 1 < d < i + 6 ==> !MathSpecs.Divides(d, n))
              && (n < LAST_EXACT * LAST_EXACT ==> i + 6 <= LAST_EXACT)
  {
    if n % i != 0 {
      if i == n {
        MathSpecs.MulMod(n, 1);
      }
      NextTrialsFit(n, i);
      if n % (i + 2) != 0 && i + 2 == n {
        MathSpecs.MulMod(n, 1);
      }
    }
    if n < LAST_EXACT * LAST_EXACT {
      SquareFits(i);
      MathSpecs.TrialStep(n, i);
      if n % i != 0 && n % (i + 2) != 0 {
        SquareBelow(i, LAST_EXACT);
        assert i < LAST_EXACT;
      }
    } else if n % i != 0 && n % (i + 2) != 0 {
      MathSpecs.StepSixPreservesNoDivisor(n, i);
    }
  }

  /** For n without factor 2 or 3, that is n of the form 6m+1 or 6m+5, and a
      trial divisor i of the form 6k+5 below n: i + 2 is at most n, and when
      it is not n either, i + 6 is at most n too. */
  lemma NextTrialsFit(n: int, i: int)
    requires n > 3 && !MathSpecs.Divides(2, n) && !MathSpecs.Divides(3, n)
    requires 5 <= i && i % 6 == 5 && i < n
    ensures i + 2 <= n
    ensures i + 2 != n ==> i + 6 <= n
  {
    var q, m, r := i / 6, n / 6, n % 6;
    assert i == 6 * q + 5 && n == 6 * m + r && 0 <= r < 6;
    assert n == (3 * m + r / 2) * 2 + r % 2;
    MathSpecs.ModOfBlock(3 * m + r / 2, 2, r % 2);
    assert n == (2 * m + r / 3) * 3 + r % 3;
    MathSpecs.ModOfBlock(2 * m + r / 3, 3, r % 3);
    assert r == 1 || r == 5;
  }

  /** Below LAST_EXACT a square fits in an int64, so the wrapped square is the
      square. */
  lemma SquareFits(i: int)
    requires 0 <= i <= LAST_EXACT
    ensures i * i <= LAST_EXACT * LAST_EXACT
    ensures MathSpecs.IsInt64(i * i) && MathSpecs.Wrap64(i * i) == i * i
  {
    MulBelow(i, LAST_EXACT, i);
    MulBelow(i, LAST_EXACT, LAST_EXACT);
    MulBelow(0, i, i);
    assert LAST_EXACT * LAST_EXACT < MathSpecs.TWO_63;
  }

  /** Multiplying by a non-negative number keeps the order. */
  lemma MulBelow(a: int, b: int, c: int)
    requires 0 <= a <= b && c >= 0
    ensures a * c <= b * c
  {
  }

  /** A square below k * k has its root below k. */
  lemma SquareBelow(i: int, k: int)
    requires 0 <= i && 0 <= k && i * i < k * k
    ensures i < k
  {
    if i >= k {
      MulBelow(k, i, i);
      MulBelow(k, i, k);
    }
  }

  /** The loop as written stops only when the square exceeds n, whether or
      not it wrapped, since a square that wraps is at least 2^63. */
  lemma WrappedGuardExit(n: int, i: int)
    requires MathSpecs.IsInt64(n) && i >= 0
    requires MathSpecs.Wrap64(i * i) > n
    ensures i * i > n
  {
    MulBelow(0, i, i);
  }

  /** The guard as written lets the loop past the square root: the square of
      the trial divisor after LAST_EXACT exceeds every int64, and wrapped it
      is negative, so the guard holds for every n >= 0, including every n from
      LAST_EXACT^2 on, whose square root that divisor exceeds. */
  lemma GuardWrapsPastRoot()
    ensures LAST_EXACT % 6 == 5
    ensures LAST_EXACT * LAST_EXACT < MathSpecs.TWO_63 <= (LAST_EXACT + 6) * (LAST_EXACT + 6)
    ensures MathSpecs.Wrap64((LAST_EXACT + 6) * (LAST_EXACT + 6)) < 0
  {
  }

  /** The square root bound the source evidently intends, with the square
      compared without wrapping (in Go, for instance, as `i <= n/i`): True
      exactly for primes, for every int64. */
  method IsPrimeCorrected(n: int) returns (b: bool)
    requires MathSpecs.IsInt64(n)
    ensures b <==> MathSpecs.IsPrime(n)
  {
    MathSpecs.SmallPrimes();
    if n <= 1 {
      return false;
    }
    if n <= 3 {
      return true;
    }
    if n % 2 == 0 || n % 3 == 0 {
      MathSpecs.SmallFactorsExcludePrime(n);
      return false;
    }
    MathSpecs.NoDivisorBelowFive(n);
    var i := 5;
    while i * i <= n
      invariant i >= 5 && i % 6 == 5
      invariant forall d :: 1 < d < i ==> !MathSpecs.Divides(d, n)
      decreases n - i
    {
      MathSpecs.TrialStep(n, i);
      if n % i == 0 {
        return false;
      }
      if n % (i + 2) == 0 {
        return false;
      }
      i := i + 6;
    }
    MathSpecs.NoDivisorBelowRootIsPrime(n, i);
    return true;
  }

  /** Factorial: an error for a negative n, 1 for n == 0, and otherwise the
      product 2 * 3 * ... * n in int64 arithmetic, which wraps around from 21
      on. The loop counter is an int compared with `i <= n`, which never fails
      for the largest int, so that one input is excluded. */
  method Factorial(n: int) returns (r: Result<int>)
    requires MathSpecs.IsInt64(n) && n < MathSpecs.TWO_63 - 1
    ensures r.Err? <==> n < 0
    ensures r.Err? ==> r == Err(GoError, "factorial not defined for negative numbers")
    ensures r.Ok? ==> n >= 0 && r.value == MathSpecs.WrappedFact64(n) && MathSpecs.IsInt64(r.value)
    ensures r.Ok? && 0 <= n <= 20 ==> r.value == MathSpecs.Fact(n)
  {
    if n < 0 {
      return Err(GoError, "factorial not defined for negative numbers");
    }
    MathSpecs.WrappedFact64Exact(n);
    if n == 0 {
      return Ok(1);
    }
    var result := 1;
    var i := 2;
    while i <= n
      invariant i == 2 || 2 < i <= n + 1
      invariant result == MathSpecs.WrappedFact64(i - 1)
    {
      result := MathSpecs.Wrap64(result * i);
      i := i + 1;
    }
    assert i == 2 || i == n + 1;
    return Ok(result);
  }

  /** ReverseString: the runes swapped pairwise from both ends inwards. */
  method ReverseString(s: string) returns (r: string)
    ensures r == Reverse(s)
  {
    var runes := new char[|s|](k requires 0 <= k < |s| => s[k]);
    assert runes[..] == s;
    var i := 0;
    var j := runes.Length - 1;
    while i < j
      invariant 0 <= i <= runes.Length && j == runes.Length - 1 - i
      invariant i <= j + 1
      invariant forall k :: 0 <= k < i ==> runes[k] == s[|s| - 1 - k] && runes[|s| - 1 - k] == s[k]
      invariant forall k :: i <= k <= j ==> runes[k] == s[k]
      decreases j - i
    {
      runes[i], runes[j] := runes[j], runes[i];
      i := i + 1;
      j := j - 1;
    }
    r := runes[..];
    ReverseFromMirror(s, r);
  }

  /** The runes IsPalindrome compares: the letters and digits of s, lower-cased. */
  function Clean(s: string, isLetterOrDigit: char -> bool, toLower: char -> char): string
  {
    MapSeq(Filter(s, isLetterOrDigit), toLower)
  }

  /** IsPalindrome: collect the lower-cased letters and digits, then compare
      them pairwise from both ends. */
  method IsPalindrome(s: string, isLetterOrDigit: char -> bool, toLower: char -> char) returns (b: bool)
    ensures b <==> SeqSpecs.IsPalindrome(Clean(s, isLetterOrDigit, toLower))
  {
    var clean: string := [];
    for k := 0 to |s|
      invariant clean == Clean(s[..k], isLetterOrDigit, toLower)
    {
      ghost var kept := Filter(s[..k], isLetterOrDigit);
      FilterSnoc(s, k, isLetterOrDigit);
      if isLetterOrDigit(s[k]) {
        assert Filter(s[..k + 1], isLetterOrDigit) == kept + [s[k]];
        MapSeqSnoc(kept, s[k], toLower);
        clean := clean + [toLower(s[k])];
      } else {
        assert Filter(s[..k + 1], isLetterOrDigit) == kept + [] == kept;
      }
    }
    assert s[..|s|] == s;
    PalindromeIffHalfMirror(clean);
    var i := 0;
    var j := |clean| - 1;
    while i < j
      invariant 0 <= i <= |clean| && j == |clean| - 1 - i
      invariant forall k :: 0 <= k < i ==> clean[k] == clean[|clean| - 1 - k]
      decreases j - i
    {
      if clean[i] != clean[j] {
        return false;
      }
      i := i + 1;
      j := j - 1;
    }
    return true;
  }

  /** A string without letters or digits is a palindrome, whatever its other runes. */
  lemma NoLettersIsPalindrome(s: string, isLetterOrDigit: char -> bool, toLower: char -> char)
    requires forall k :: 0 <= k < |s| ==> !isLetterOrDigit(s[k])
    ensures SeqSpecs.IsPalindrome(Clean(s, isLetterOrDigit, toLower))
  {
    FilterExtremes(s, isLetterOrDigit);
  }

  /** FindMax: an error for an empty slice; otherwise the running maximum over
      every element, starting from the first. */
  method FindMax(numbers: seq<int>) returns (r: Result<int>)
    ensures r.Err? <==> |numbers| == 0
    ensures r.Err? ==> r == Err(GoError, "slice is empty")
    ensures r.Ok? ==> r.value == Max(numbers)
    ensures r.Ok? ==> r.value in numbers && forall k :: 0 <= k < |numbers| ==> numbers[k] <= r.value
  {
    if |numbers| == 0 {
      return Err(GoError, "slice is empty");
    }
    var max := numbers[0];
    assert numbers[..1] == [numbers[0]];
    for k := 0 to |numbers|
      invariant k == 0 ==> max == numbers[0]
      invariant k > 0 ==> max == Max(numbers[..k])
    {
      if k > 0 {
        MaxSnoc(numbers, k);
      }
      if numbers[k] > max {
        max := numbers[k];
      }
    }
    assert numbers[..|numbers|] == numbers;
    return Ok(max);
  }

  datatype Person = Person(firstName: string, lastName: string, age: int, email: string)

  /** FormatFullName: the first and last name joined by one space. */
  function FormatFullName(p: Person): (name: string)
    ensures |name| == |p.firstName| + 1 + |p.lastName|
    ensures name[|p.firstName|] == ' '
    ensures name[..|p.firstName|] == p.firstName && name[|p.firstName| + 1..] == p.lastName
  {
    p.firstName + " " + p.lastName
  }

  /** When neither name holds a space, splitting the full name at spaces gives
      the two names back. */
  lemma FormatFullNameSplits(p: Person)
    requires ' ' !in p.firstName && ' ' !in p.lastName
    ensures Split(FormatFullName(p), ' ') == [p.firstName, p.lastName]
  {
    SplitNoSep(p.firstName, ' ');
    SplitAppendPart(p.firstName, p.lastName, ' ');
  }

  /** IsAdult: the person has reached adultAge. */
  predicate IsAdult(p: Person, adultAge: int)
  {
    p.age >= adultAge
  }

  /** Raising adultAge only removes adults: whoever is an adult at the higher
      age is one at the lower, and filtering at the higher age after the lower
      is filtering at the higher age alone. */
  lemma AdultThresholdNarrows(persons: seq<Person>, lower: int, higher: int)
    requires lower <= higher
    ensures forall p :: IsAdult(p, higher) ==> IsAdult(p, lower)
    ensures Filter(Filter(persons, AdultTest(lower)), AdultTest(higher)) == Filter(persons, AdultTest(higher))
  {
    FilterNarrow(persons, AdultTest(lower), AdultTest(higher));
  }

  /** The test FilterAdults applies, as one value so that filters by it compare equal. */
  function AdultTest(adultAge: int): Person -> bool
  {
    p => IsAdult(p, adultAge)
  }

  /** FilterAdults: the adults of persons, in their original order. */
  method FilterAdults(persons: seq<Person>, adultAge: int) returns (adults: seq<Person>)
    ensures adults == Filter(persons, AdultTest(adultAge))
    ensures forall p :: p in adults <==> p in persons && IsAdult(p, adultAge)
  {
    adults := [];
    for k := 0 to |persons|
      invariant adults == Filter(persons[..k], AdultTest(adultAge))
    {
      FilterSnoc(persons, k, AdultTest(adultAge));
      if IsAdult(persons[k], adultAge) {
        adults := adults + [persons[k]];
      }
    }
    assert persons[..|persons|] == persons;
    FilterMembers(persons, AdultTest(adultAge));
  }

  /** A string as a sort key. */
  function StringKey(s: string): Key
  {
    StrKey(s)
  }

  /** SortByField: a sorted copy of items, ascending or descending. The input is
      a value here, so it is left unchanged. Strings of equal order are
      identical, so whether the library sort is stable does not show. */
  function SortByField(items: seq<string>, ascending: bool): (result: seq<string>)
    ensures multiset(result) == multiset(items)
    ensures SortedBy(result, StringKey, !ascending)
  {
    SortBySorted(items, StringKey, !ascending);
    SortBy(items, StringKey, !ascending)
  }

  /** CountWords: 0 when the text is empty or only white space, otherwise the
      number of fields. */
  function CountWords(text: string): (n: nat)
    ensures n == RunStarts(text, IsGoSpace)
    ensures n == 0 <==> forall k :: 0 <= k < |text| ==> IsGoSpace(text[k])
  {
    StripEmptyIffAllWs(text, IsGoSpace);
    RunStartsZeroIffAllWs(text, IsGoSpace);
    FieldsAreRuns(text, IsGoSpace);
    if |Strip(text, IsGoSpace)| == 0 then 0 else |Fields(text, IsGoSpace)|
  }
}
