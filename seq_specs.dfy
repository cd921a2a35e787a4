/** Reference definitions over sequences that several samples share:
    reversal, palindromes, order-preserving filters, element-wise maps and the
    merge of two ascending sequences.
 */
module SeqSpecs {

  // ----- Reversal -----

  /** The elements of s in the opposite order. */
  function Reverse<T>(s: seq<T>): (r: seq<T>)
    ensures |r| == |s|
  {
    if s == [] then [] else Reverse(s[1..]) + [s[0]]
  }

  /** Position k of the reversal holds the element at the mirrored position of s. */
  lemma {:induction false} ReverseAt<T>(s: seq<T>, k: int)
    requires 0 <= k < |s|
    ensures Reverse(s)[k] == s[|s| - 1 - k]
  {
    if k < |s| - 1 {
      ReverseAt(s[1..], k);
    }
  }

  /** Every position of the reversal holds the element at the mirrored position. */
  lemma ReverseMirror<T>(s: seq<T>)
    ensures forall k :: 0 <= k < |s| ==> Reverse(s)[k] == s[|s| - 1 - k]
  {
    forall k | 0 <= k < |s|
      ensures Reverse(s)[k] == s[|s| - 1 - k]
    {
      ReverseAt(s, k);
    }
  }

  /** A sequence that mirrors s position by position is its reversal. */
  lemma ReverseFromMirror<T>(s: seq<T>, r: seq<T>)
    requires |r| == |s|
    requires forall k :: 0 <= k < |s| ==> r[k] == s[|s| - 1 - k]
    ensures r == Reverse(s)
  {
    forall k | 0 <= k < |s|
      ensures r[k] == Reverse(s)[k]
    {
      ReverseAt(s, k);
    }
  }

  /** Reversing twice gives the original sequence. */
  lemma ReverseInvolutive<T>(s: seq<T>)
    ensures Reverse(Reverse(s)) == s
  {
    forall k | 0 <= k < |s|
      ensures Reverse(Reverse(s))[k] == s[k]
    {
      ReverseAt(Reverse(s), k);
      ReverseAt(s, |s| - 1 - k);
    }
  }

  // ----- Palindromes -----

  /** s reads the same backwards. */
  predicate IsPalindrome<T(==)>(s: seq<T>)
  {
    Reverse(s) == s
  }

  /** The two-index test: s is a palindrome iff every position in its first
      half matches its mirror. */
  lemma PalindromeIffHalfMirror<T>(s: seq<T>)
    ensures IsPalindrome(s) <==> forall i :: 0 <= i < |s| / 2 ==> s[i] == s[|s| - 1 - i]
  {
    if forall i :: 0 <= i < |s| / 2 ==> s[i] == s[|s| - 1 - i] {
      forall k | 0 <= k < |s|
        ensures s[k] == s[|s| - 1 - k]
      {
        if k >= |s| / 2 && |s| - 1 - k < |s| / 2 {
          assert s[|s| - 1 - k] == s[|s| - 1 - (|s| - 1 - k)];
        }
      }
      ReverseFromMirror(s, s);
    }
    if IsPalindrome(s) {
      forall i | 0 <= i < |s| / 2
        ensures s[i] == s[|s| - 1 - i]
      {
        ReverseAt(s, i);
      }
    }
  }

  // ----- Order-preserving filter -----

  /** The elements of s that satisfy p, in their original order. */
  function Filter<T>(s: seq<T>, p: T -> bool): (r: seq<T>)
    ensures |r| <= |s|
  {
    if s == [] then [] else
      Filter(s[..|s| - 1], p) + (if p(s[|s| - 1]) then [s[|s| - 1]] else [])
  }

  /** Moving one element x from the rest to the done part of a walk over a set. */
  lemma TakeOne<T>(all: set<T>, rest: set<T>, x: T)
    requires rest <= all && x in rest
    ensures x !in all - rest
    ensures all - (rest - {x}) == (all - rest) + {x}
  {
  }

  /** One step of a loop that filters s[..i] into an accumulator. */
  lemma FilterSnoc<T>(s: seq<T>, i: int, p: T -> bool)
    requires 0 <= i < |s|
    ensures Filter(s[..i + 1], p) == Filter(s[..i], p) + (if p(s[i]) then [s[i]] else [])
  {
    assert s[..i + 1][..i] == s[..i];
  }

  /** Membership in a filter: exactly the elements of s that satisfy p. */
  lemma {:induction false} FilterMembers<T>(s: seq<T>, p: T -> bool)
    ensures forall x :: x in Filter(s, p) <==> x in s && p(x)
  {
    if s != [] {
      FilterMembers(s[..|s| - 1], p);
      assert s == s[..|s| - 1] + [s[|s| - 1]];
    }
  }

  /** Each element of a filter comes from s and satisfies p. */
  lemma {:induction false} FilterElements<T>(s: seq<T>, p: T -> bool)
    ensures forall k :: 0 <= k < |Filter(s, p)| ==> Filter(s, p)[k] in s && p(Filter(s, p)[k])
  {
    if s != [] {
      var init := s[..|s| - 1];
      FilterElements(init, p);
      assert forall x :: x in init ==> x in s;
    }
  }

  /** A filter keeps the original order: filtering a concatenation filters each
      part and concatenates the results. */
  lemma {:induction false} FilterConcat<T>(s: seq<T>, t: seq<T>, p: T -> bool)
    ensures Filter(s + t, p) == Filter(s, p) + Filter(t, p)
    decreases |t|
  {
    if t == [] {
      assert s + t == s;
    } else {
      var t' := t[..|t| - 1];
      FilterConcat(s, t', p);
      assert (s + t)[..|s + t| - 1] == s + t';
    }
  }

  /** A filter keeps every element when p holds throughout, and none when p never holds. */
  lemma {:induction false} FilterExtremes<T>(s: seq<T>, p: T -> bool)
    ensures (forall k :: 0 <= k < |s| ==> p(s[k])) ==> Filter(s, p) == s
    ensures (forall k :: 0 <= k < |s| ==> !p(s[k])) ==> Filter(s, p) == []
  {
    if s != [] {
      var init, x := s[..|s| - 1], s[|s| - 1];
      FilterExtremes(init, p);
      assert Filter(s, p) == Filter(init, p) + (if p(x) then [x] else []);
      if forall k :: 0 <= k < |s| ==> p(s[k]) {
        assert forall k :: 0 <= k < |init| ==> p(init[k]) by {
          forall k | 0 <= k < |init| ensures p(init[k]) { assert init[k] == s[k]; }
        }
        assert p(x) && init + [x] == s;
      }
      if forall k :: 0 <= k < |s| ==> !p(s[k]) {
        assert forall k :: 0 <= k < |init| ==> !p(init[k]) by {
          forall k | 0 <= k < |init| ensures !p(init[k]) { assert init[k] == s[k]; }
        }
        assert !p(x);
      }
    }
  }

  /** Filtering by a stricter test after a looser one is filtering by the
      stricter test alone. */
  lemma {:induction false} FilterNarrow<T>(s: seq<T>, p: T -> bool, q: T -> bool)
    requires forall x :: q(x) ==> p(x)
    ensures Filter(Filter(s, p), q) == Filter(s, q)
  {
    if s != [] {
      var init, x := s[..|s| - 1], s[|s| - 1];
      FilterNarrow(init, p, q);
      FilterConcat(Filter(init, p), if p(x) then [x] else [], q);
      assert Filter([x], q) == (if q(x) then [x] else []) by {
        assert [x][..|[x]| - 1] == [];
      }
      if p(x) {
        assert Filter(s, p) == Filter(init, p) + [x];
      } else {
        assert Filter(s, p) == Filter(init, p) + [];
        assert Filter([], q) == [];
      }
    }
  }

  // ----- Element-wise map -----

  /** f applied to every element of s. */
  function MapSeq<A, B>(s: seq<A>, f: A -> B): (r: seq<B>)
    ensures |r| == |s|
    ensures forall k :: 0 <= k < |s| ==> r[k] == f(s[k])
  {
    seq(|s|, k requires 0 <= k < |s| => f(s[k]))
  }

  /** Mapping a sequence with one more element gives one more image. */
  lemma MapSeqSnoc<A, B>(s: seq<A>, x: A, f: A -> B)
    ensures MapSeq(s + [x], f) == MapSeq(s, f) + [f(x)]
  {
    assert |MapSeq(s + [x], f)| == |MapSeq(s, f) + [f(x)]|;
    forall k | 0 <= k < |s| + 1 ensures MapSeq(s + [x], f)[k] == (MapSeq(s, f) + [f(x)])[k] {
      if k < |s| { assert (s + [x])[k] == s[k]; }
    }
  }

  // ----- Maximum -----

  /** The largest element of a non-empty sequence; the last of several equal maxima
      does not matter, since they are equal. */
  function Max(s: seq<int>): (m: int)
    requires |s| > 0
    ensures m in s
    ensures forall k :: 0 <= k < |s| ==> s[k] <= m
  {
    if |s| == 1 then s[0]
    else
      var m := Max(s[..|s| - 1]);
      if s[|s| - 1] > m then s[|s| - 1] else m
  }

  /** One step of a running-maximum loop over s[..i]. */
  lemma MaxSnoc(s: seq<int>, i: int)
    requires 0 < i < |s|
    ensures Max(s[..i + 1]) == if s[i] > Max(s[..i]) then s[i] else Max(s[..i])
  {
    assert s[..i + 1][..i] == s[..i];
  }

  /** The smallest element of a non-empty sequence (Python's min). */
  function Min(s: seq<int>): (m: int)
    requires |s| > 0
    ensures m in s
    ensures forall k :: 0 <= k < |s| ==> m <= s[k]
  {
    if |s| == 1 then s[0]
    else
      var m := Min(s[..|s| - 1]);
      if s[|s| - 1] < m then s[|s| - 1] else m
  }

  // ----- Sums -----

  /** The total of a sequence (Python's sum). */
  function Sum(s: seq<int>): int
  {
    if s == [] then 0 else Sum(s[..|s| - 1]) + s[|s| - 1]
  }

  /** A sum taken from the front: the first element plus the sum of the rest. */
  lemma {:induction false} SumFront(s: seq<int>)
    requires |s| > 0
    ensures Sum(s) == s[0] + Sum(s[1..])
    decreases |s|
  {
    if |s| > 1 {
      var init := s[..|s| - 1];
      SumFront(init);
      assert init[1..] == s[1..][..|s[1..]| - 1];
    } else {
      assert s[..0] == [] && s[1..] == [];
    }
  }

  /** The product of a sequence, the reference for the samples that multiply
      their arguments. */
  function Product(s: seq<int>): int
  {
    if s == [] then 1 else Product(s[..|s| - 1]) * s[|s| - 1]
  }

  /** The product of a concatenation is the product of the products, so a
      product can be taken part by part. */
  lemma {:induction false} ProductAppend(s: seq<int>, t: seq<int>)
    ensures Product(s + t) == Product(s) * Product(t)
    decreases |t|
  {
    if t == [] {
      assert s + t == s;
    } else {
      var t' := t[..|t| - 1];
      ProductAppend(s, t');
      assert (s + t)[..|s + t| - 1] == s + t';
      assert Product(s + t) == (Product(s) * Product(t')) * t[|t| - 1];
    }
  }

  /** The sum and the product of two numbers. */
  lemma PairTotals(a: int, b: int)
    ensures Sum([a, b]) == a + b && Product([a, b]) == a * b
  {
    assert [a, b][..1] == [a];
    assert [a][..0] == [];
    assert Sum([a]) == Sum([]) + a && Product([a]) == Product([]) * a;
    assert Sum([a, b]) == Sum([a]) + b && Product([a, b]) == Product([a]) * b;
  }

  /** The sum and the product of three numbers. */
  lemma TripleTotals(a: int, b: int, c: int)
    ensures Sum([a, b, c]) == a + b + c && Product([a, b, c]) == a * b * c
  {
    assert [a, b, c][..2] == [a, b];
    PairTotals(a, b);
    assert Sum([a, b, c]) == Sum([a, b]) + c && Product([a, b, c]) == Product([a, b]) * c;
  }

  /** The total of a multiset: the order in which values were collected does
      not matter. */
  ghost function MSum(m: multiset<int>): int
    decreases |m|
  {
    if |m| == 0 then 0
    else
      MultisetHasElement(m);
      var x :| x in m;
      x + MSum(m - multiset{x})
  }

  /** A non-empty multiset has an element. */
  lemma MultisetHasElement(m: multiset<int>)
    requires |m| > 0
    ensures exists x :: x in m
  {
    if forall x :: x !in m {
      assert false;
    }
  }

  /** The total of a multiset can be taken with any element first. */
  lemma {:induction false} MSumRemove(m: multiset<int>, x: int)
    requires x in m
    ensures MSum(m) == x + MSum(m - multiset{x})
    decreases |m|
  {
    var y :| y in m && MSum(m) == y + MSum(m - multiset{y});
    if y != x {
      var mx, my := m - multiset{x}, m - multiset{y};
      RemoveTwo(m, x, y);
      MSumRemove(my, x);
      MSumRemove(mx, y);
    }
  }

  /** Removing two different elements in either order leaves the same multiset. */
  lemma RemoveTwo(m: multiset<int>, x: int, y: int)
    requires x in m && y in m && x != y
    ensures x in m - multiset{y} && y in m - multiset{x}
    ensures m - multiset{x} - multiset{y} == m - multiset{y} - multiset{x}
  {
  }

  /** The sum of a sequence is the total of its elements, in any order. */
  lemma {:induction false} SumIsMSum(s: seq<int>)
    ensures Sum(s) == MSum(multiset(s))
  {
    if s != [] {
      var init := s[..|s| - 1];
      SumIsMSum(init);
      assert s == init + [s[|s| - 1]];
      assert multiset(s) - multiset{s[|s| - 1]} == multiset(init);
      MSumRemove(multiset(s), s[|s| - 1]);
    }
  }

  // ----- Ascending sequences and merging -----

  /** s is in non-decreasing order. */
  predicate Ascending(s: seq<int>)
  {
    forall i, j :: 0 <= i < j < |s| ==> s[i] <= s[j]
  }

  /** The merge of a and b: repeatedly take the smaller head, taking a's head on a tie. */
  function Merge(a: seq<int>, b: seq<int>): (r: seq<int>)
    decreases |a| + |b|
  {
    if a == [] then b
    else if b == [] then a
    else if a[0] <= b[0] then [a[0]] + Merge(a[1..], b)
    else [b[0]] + Merge(a, b[1..])
  }

  /** Merging the suffixes a[i..] and b[j..] takes a[i] first when b[j..] is
      empty or a[i] <= b[j]. */
  lemma MergeTakesA(a: seq<int>, b: seq<int>, i: int, j: int)
    requires 0 <= i < |a| && 0 <= j <= |b|
    requires j == |b| || a[i] <= b[j]
    ensures Merge(a[i..], b[j..]) == [a[i]] + Merge(a[i + 1..], b[j..])
  {
    assert a[i..][0] == a[i] && a[i..][1..] == a[i + 1..];
    if j == |b| {
      assert b[j..] == [];
    } else {
      assert b[j..][0] == b[j];
    }
  }

  /** Merging the suffixes a[i..] and b[j..] takes b[j] first when a[i..] is
      empty or a[i] > b[j]. */
  lemma MergeTakesB(a: seq<int>, b: seq<int>, i: int, j: int)
    requires 0 <= i <= |a| && 0 <= j < |b|
    requires i == |a| || a[i] > b[j]
    ensures Merge(a[i..], b[j..]) == [b[j]] + Merge(a[i..], b[j + 1..])
  {
    assert b[j..][0] == b[j] && b[j..][1..] == b[j + 1..];
    if i == |a| {
      assert a[i..] == [];
      assert Merge(a[i..], b[j + 1..]) == b[j + 1..];
    } else {
      assert a[i..][0] == a[i];
    }
  }

  /** A merge loses and adds nothing: it is a permutation of a ++ b. */
  lemma {:induction false} MergePermutes(a: seq<int>, b: seq<int>)
    ensures multiset(Merge(a, b)) == multiset(a + b)
    decreases |a| + |b|
  {
    if a == [] {
      assert a + b == b;
    } else if b == [] {
      assert a + b == a;
    } else if a[0] <= b[0] {
      MergePermutes(a[1..], b);
      assert a + b == [a[0]] + (a[1..] + b);
    } else {
      MergePermutes(a, b[1..]);
      MergeStepRight(a, b);
    }
  }

  /** Taking b's head first permutes a ++ b into [b[0]] ++ (a ++ b[1..]). */
  lemma MergeStepRight(a: seq<int>, b: seq<int>)
    requires b != []
    ensures multiset(a + b) == multiset([b[0]] + (a + b[1..]))
  {
    assert b == [b[0]] + b[1..];
    calc {
      multiset(a + b);
      multiset(a) + multiset(b);
      multiset(a) + (multiset{b[0]} + multiset(b[1..]));
      multiset{b[0]} + (multiset(a) + multiset(b[1..]));
      multiset([b[0]] + (a + b[1..]));
    }
  }

  /** A merge has exactly as many elements as its two inputs together. */
  lemma MergeLength(a: seq<int>, b: seq<int>)
    ensures |Merge(a, b)| == |a| + |b|
  {
    MergePermutes(a, b);
    assert |multiset(Merge(a, b))| == |multiset(a + b)|;
  }

  /** The merge of two ascending sequences is ascending. */
  lemma {:induction false} MergeAscending(a: seq<int>, b: seq<int>)
    requires Ascending(a) && Ascending(b)
    ensures Ascending(Merge(a, b))
    decreases |a| + |b|
  {
    if a != [] && b != [] {
      if a[0] <= b[0] {
        MergeAscending(a[1..], b);
        MergeHeadBound(a[1..], b, a[0]);
      } else {
        MergeAscending(a, b[1..]);
        MergeHeadBound(a, b[1..], b[0]);
      }
    }
  }

  /** A lower bound of both (ascending) inputs bounds every element of their merge. */
  lemma MergeHeadBound(a: seq<int>, b: seq<int>, x: int)
    requires Ascending(a) && Ascending(b)
    requires a != [] ==> x <= a[0]
    requires b != [] ==> x <= b[0]
    ensures forall k :: 0 <= k < |Merge(a, b)| ==> x <= Merge(a, b)[k]
  {
    MergePermutes(a, b);
    forall k | 0 <= k < |Merge(a, b)|
      ensures x <= Merge(a, b)[k]
    {
      var y := Merge(a, b)[k];
      assert y in multiset(a + b);
      assert y in a + b;
    }
  }

  /** The predicate "equal to v", shared so that filters by it compare equal. */
  function EqualTo(v: int): int -> bool
  {
    x => x == v
  }

  /** Filtering a one-element prefix. */
  lemma {:induction false} FilterCons<T>(x: T, s: seq<T>, p: T -> bool)
    ensures Filter([x] + s, p) == (if p(x) then [x] else []) + Filter(s, p)
  {
    FilterConcat([x], s, p);
    assert Filter([x], p) == (if p(x) then [x] else []) by {
      assert [x][..|[x]| - 1] == [];
    }
  }

  /** Every copy of each value v comes through the merge: the copies of v in
      the result are those of a together with those of b. Over integers, equal
      elements cannot be told apart, so this is the count of v, stated one
      value at a time. */
  lemma {:induction false} MergeStable(a: seq<int>, b: seq<int>, v: int)
    requires Ascending(a) && Ascending(b)
    ensures Filter(Merge(a, b), EqualTo(v)) == Filter(a, EqualTo(v)) + Filter(b, EqualTo(v))
    decreases |a| + |b|
  {
    if a == [] {
      assert Merge(a, b) == b;
      assert Filter(a, EqualTo(v)) == [];
    } else if b == [] {
      assert Merge(a, b) == a;
      assert Filter(b, EqualTo(v)) == [];
    } else if a[0] <= b[0] {
      assert Ascending(a[1..]);
      MergeStable(a[1..], b, v);
      MergeStableTakeLeft(a, b, v);
    } else {
      assert Ascending(b[1..]);
      MergeStable(a, b[1..], v);
      MergeStableTakeRight(a, b, v);
    }
  }

  /** The step of MergeStable that takes a's head. */
  lemma {:induction false} MergeStableTakeLeft(a: seq<int>, b: seq<int>, v: int)
    requires a != [] && b != [] && a[0] <= b[0]
    requires Filter(Merge(a[1..], b), EqualTo(v)) == Filter(a[1..], EqualTo(v)) + Filter(b, EqualTo(v))
    ensures Filter(Merge(a, b), EqualTo(v)) == Filter(a, EqualTo(v)) + Filter(b, EqualTo(v))
  {
    var p := EqualTo(v);
    var m := Merge(a[1..], b);
    var head := if p(a[0]) then [a[0]] else [];
    assert Merge(a, b) == [a[0]] + m;
    FilterCons(a[0], m, p);
    assert a == [a[0]] + a[1..];
    FilterCons(a[0], a[1..], p);
    ConcatAssoc(head, Filter(a[1..], p), Filter(b, p));
  }

  /** The step of MergeStable that takes b's head: it passes every copy of v in a
      only when it is not itself v, since a's elements all exceed it. */
  lemma {:induction false} MergeStableTakeRight(a: seq<int>, b: seq<int>, v: int)
    requires Ascending(a) && a != [] && b != [] && a[0] > b[0]
    requires Filter(Merge(a, b[1..]), EqualTo(v)) == Filter(a, EqualTo(v)) + Filter(b[1..], EqualTo(v))
    ensures Filter(Merge(a, b), EqualTo(v)) == Filter(a, EqualTo(v)) + Filter(b, EqualTo(v))
  {
    if b[0] == v {
      AboveNoneEqual(a, v);
    }
    TakeRightStep(a, b, v);
  }

  /** MergeStableTakeRight once a is known to hold no copy of b's head. */
  lemma TakeRightStep(a: seq<int>, b: seq<int>, v: int)
    requires a != [] && b != [] && a[0] > b[0]
    requires b[0] == v ==> Filter(a, EqualTo(v)) == []
    requires Filter(Merge(a, b[1..]), EqualTo(v)) == Filter(a, EqualTo(v)) + Filter(b[1..], EqualTo(v))
    ensures Filter(Merge(a, b), EqualTo(v)) == Filter(a, EqualTo(v)) + Filter(b, EqualTo(v))
  {
    var p := EqualTo(v);
    var m := Merge(a, b[1..]);
    var fa, fb1 := Filter(a, p), Filter(b[1..], p);
    assert Merge(a, b) == [b[0]] + m;
    FilterCons(b[0], m, p);
    assert b == [b[0]] + b[1..];
    FilterCons(b[0], b[1..], p);
    assert p(b[0]) <==> b[0] == v;
    if b[0] == v {
      assert Filter(Merge(a, b), p) == [b[0]] + Filter(m, p);
      assert Filter(m, p) == fb1;
      assert Filter(b, p) == [b[0]] + fb1;
      assert fa + Filter(b, p) == Filter(b, p);
    } else {
      assert Filter(Merge(a, b), p) == Filter(m, p);
      assert Filter(b, p) == fb1;
    }
  }

  /** Concatenation is associative. */
  lemma ConcatAssoc<T>(x: seq<T>, y: seq<T>, z: seq<T>)
    ensures x + (y + z) == (x + y) + z
  {
  }

  /** An ascending sequence starting above v holds no copy of v. */
  lemma AboveNoneEqual(a: seq<int>, v: int)
    requires Ascending(a) && a != [] && a[0] > v
    ensures Filter(a, EqualTo(v)) == []
  {
    forall k | 0 <= k < |a|
      ensures !EqualTo(v)(a[k])
    {
      assert a[0] <= a[k];
    }
    FilterExtremes(a, EqualTo(v));
  }
}
