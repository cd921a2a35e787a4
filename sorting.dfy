/** The outcome of a stable sort, as Python's sorted() and Go's sort.Strings
    produce it: a permutation of the input ordered by a key, with elements of
    equal key in their original order. The library algorithms themselves are
    not modelled; a stable insertion sort serves as the reference.
 */
module Sorting {
  import opened SeqSpecs

  /** A sort key: a number (int or bool in Python) or a string. */
  datatype Key = NumKey(n: int) | StrKey(s: string)

  /** Lexicographic order of strings by code point, as Python compares str and
      as Go compares UTF-8 strings byte by byte. */
  predicate StrLe(a: string, b: string)
  {
    a == [] || (b != [] && (a[0] < b[0] || (a[0] == b[0] && StrLe(a[1..], b[1..]))))
  }

  lemma {:induction false} StrLeTotal(a: string, b: string)
    ensures StrLe(a, b) || StrLe(b, a)
  {
    if a != [] && b != [] && a[0] == b[0] {
      StrLeTotal(a[1..], b[1..]);
    }
  }

  lemma {:induction false} StrLeTransitive(a: string, b: string, c: string)
    requires StrLe(a, b) && StrLe(b, c)
    ensures StrLe(a, c)
  {
    if a != [] && a[0] == b[0] && b[0] == c[0] {
      StrLeTransitive(a[1..], b[1..], c[1..]);
    }
  }

  lemma {:induction false} StrLeAntisymmetric(a: string, b: string)
    requires StrLe(a, b) && StrLe(b, a)
    ensures a == b
  {
    if a != [] {
      StrLeAntisymmetric(a[1..], b[1..]);
      assert a == [a[0]] + a[1..];
      assert b == [b[0]] + b[1..];
    }
  }

  /** The order of keys; numbers before strings, a choice that never matters
      because callers reject mixed keys. */
  predicate KeyLe(a: Key, b: Key)
  {
    match (a, b)
    case (NumKey(x), NumKey(y)) => x <= y
    case (StrKey(x), StrKey(y)) => StrLe(x, y)
    case (NumKey(_), StrKey(_)) => true
    case (StrKey(_), NumKey(_)) => false
  }

  /** a may come before b: ascending, or descending when desc holds. */
  predicate Before(a: Key, b: Key, desc: bool)
  {
    if desc then KeyLe(b, a) else KeyLe(a, b)
  }

  lemma BeforeTotal(a: Key, b: Key, desc: bool)
    ensures Before(a, b, desc) || Before(b, a, desc)
  {
    if a.StrKey? && b.StrKey? { StrLeTotal(a.s, b.s); }
  }

  lemma BeforeTransitive(a: Key, b: Key, c: Key, desc: bool)
    requires Before(a, b, desc) && Before(b, c, desc)
    ensures Before(a, c, desc)
  {
    if a.StrKey? && b.StrKey? && c.StrKey? {
      if desc { StrLeTransitive(c.s, b.s, a.s); } else { StrLeTransitive(a.s, b.s, c.s); }
    }
  }

  /** s is ordered by key (ascending, or descending when desc holds). */
  predicate SortedBy<T>(s: seq<T>, key: T -> Key, desc: bool)
  {
    forall i, j :: 0 <= i < j < |s| ==> Before(key(s[i]), key(s[j]), desc)
  }

  /** r with x placed after the last element that may precede it. */
  function InsertBy<T>(r: seq<T>, x: T, key: T -> Key, desc: bool): (q: seq<T>)
    ensures multiset(q) == multiset(r) + multiset{x}
  {
    if r == [] then [x]
    else if Before(key(r[|r| - 1]), key(x), desc) then r + [x]
    else
      var q := InsertBy(r[..|r| - 1], x, key, desc) + [r[|r| - 1]];
      assert r == r[..|r| - 1] + [r[|r| - 1]];
      q
  }

  /** The stable sort of s by key: each element in turn inserted after its
      predecessors of equal key. */
  function SortBy<T>(s: seq<T>, key: T -> Key, desc: bool): (r: seq<T>)
    ensures multiset(r) == multiset(s)
    ensures |r| == |s|
  {
    if s == [] then []
    else
      var r := InsertBy(SortBy(s[..|s| - 1], key, desc), s[|s| - 1], key, desc);
      assert s == s[..|s| - 1] + [s[|s| - 1]];
      assert |multiset(r)| == |multiset(s)|;
      r
  }

  /** Inserting into an ordered sequence keeps it ordered. */
  lemma {:induction false} InsertBySorted<T>(r: seq<T>, x: T, key: T -> Key, desc: bool)
    requires SortedBy(r, key, desc)
    ensures SortedBy(InsertBy(r, x, key, desc), key, desc)
  {
    if r != [] && !Before(key(r[|r| - 1]), key(x), desc) {
      var init := r[..|r| - 1];
      assert SortedBy(init, key, desc) by {
        forall i, j | 0 <= i < j < |init| ensures Before(key(init[i]), key(init[j]), desc) {
          assert init[i] == r[i] && init[j] == r[j];
        }
      }
      InsertBySorted(init, x, key, desc);
      InsertBehindSorted(r, x, key, desc);
    } else if r != [] {
      AppendSorted(r, x, key, desc);
    }
  }

  /** The step of InsertBySorted when x goes before the last element. */
  lemma InsertBehindSorted<T>(r: seq<T>, x: T, key: T -> Key, desc: bool)
    requires SortedBy(r, key, desc) && r != [] && !Before(key(r[|r| - 1]), key(x), desc)
    requires SortedBy(InsertBy(r[..|r| - 1], x, key, desc), key, desc)
    ensures SortedBy(InsertBy(r, x, key, desc), key, desc)
  {
    var init := r[..|r| - 1];
    var last := r[|r| - 1];
    var q := InsertBy(init, x, key, desc);
    assert InsertBy(r, x, key, desc) == q + [last];
    BeforeTotal(key(last), key(x), desc);
    forall y | y in q
      ensures Before(key(y), key(last), desc)
    {
      assert y in multiset(q);
      if y != x {
        assert y in multiset(init);
        var i :| 0 <= i < |init| && init[i] == y;
        assert r[i] == y;
      }
    }
    var q' := q + [last];
    forall i, j | 0 <= i < j < |q'|
      ensures Before(key(q'[i]), key(q'[j]), desc)
    {
      if j == |q'| - 1 {
        assert q'[i] in q;
      } else {
        assert q'[i] == q[i] && q'[j] == q[j];
      }
    }
  }

  /** The step of InsertBySorted when x goes after the last element. */
  lemma AppendSorted<T>(r: seq<T>, x: T, key: T -> Key, desc: bool)
    requires SortedBy(r, key, desc) && r != [] && Before(key(r[|r| - 1]), key(x), desc)
    ensures SortedBy(r + [x], key, desc)
  {
    var q := r + [x];
    forall i, j | 0 <= i < j < |q|
      ensures Before(key(q[i]), key(q[j]), desc)
    {
      if j == |q| - 1 {
        if i < |r| - 1 {
          BeforeTransitive(key(r[i]), key(r[|r| - 1]), key(x), desc);
        }
      } else {
        assert q[i] == r[i] && q[j] == r[j];
      }
    }
  }

  /** The sort orders its result. */
  lemma {:induction false} SortBySorted<T>(s: seq<T>, key: T -> Key, desc: bool)
    ensures SortedBy(SortBy(s, key, desc), key, desc)
  {
    if s != [] {
      SortBySorted(s[..|s| - 1], key, desc);
      InsertBySorted(SortBy(s[..|s| - 1], key, desc), s[|s| - 1], key, desc);
    }
  }

  /** The predicate "has key k", shared so that filters by it compare equal. */
  function HasKey<T>(key: T -> Key, k: Key): T -> bool
  {
    x => key(x) == k
  }

  /** Inserting x adds it at the end of the elements that share its key, and
      leaves the elements of any other key in place. */
  lemma {:induction false} InsertByStable<T>(r: seq<T>, x: T, key: T -> Key, desc: bool, k: Key)
    ensures Filter(InsertBy(r, x, key, desc), HasKey(key, k))
         == Filter(r, HasKey(key, k)) + (if key(x) == k then [x] else [])
  {
    var p := HasKey(key, k);
    var xs := if key(x) == k then [x] else [];
    assert p(x) <==> key(x) == k;
    if r == [] {
      assert InsertBy(r, x, key, desc) == [x];
      assert [x][..0] == [];
      assert Filter([x], p) == Filter([], p) + xs;
    } else if Before(key(r[|r| - 1]), key(x), desc) {
      assert InsertBy(r, x, key, desc) == r + [x];
      assert (r + [x])[..|r|] == r;
      assert Filter(r + [x], p) == Filter(r, p) + xs;
    } else {
      var init := r[..|r| - 1];
      var last := r[|r| - 1];
      InsertByStable(init, x, key, desc, k);
      InsertByStableStep(r, x, key, desc, k);
    }
  }

  /** The step of InsertByStable that places x before r's last element, whose
      key then differs from x's. */
  lemma InsertByStableStep<T>(r: seq<T>, x: T, key: T -> Key, desc: bool, k: Key)
    requires r != [] && !Before(key(r[|r| - 1]), key(x), desc)
    requires Filter(InsertBy(r[..|r| - 1], x, key, desc), HasKey(key, k))
          == Filter(r[..|r| - 1], HasKey(key, k)) + (if key(x) == k then [x] else [])
    ensures Filter(InsertBy(r, x, key, desc), HasKey(key, k))
         == Filter(r, HasKey(key, k)) + (if key(x) == k then [x] else [])
  {
    var p := HasKey(key, k);
    var init := r[..|r| - 1];
    var last := r[|r| - 1];
    var q := InsertBy(init, x, key, desc);
    var xs := if key(x) == k then [x] else [];
    var ls := if p(last) then [last] else [];
    assert p(last) <==> key(last) == k;
    assert InsertBy(r, x, key, desc) == q + [last];
    assert (q + [last])[..|q|] == q;
    assert Filter(q + [last], p) == Filter(q, p) + ls;
    assert Filter(r, p) == Filter(init, p) + ls;
    if key(x) == k {
      BeforeTotal(key(x), key(x), desc);
      assert ls == [];
      assert Filter(q, p) + ls == Filter(q, p);
      assert Filter(init, p) + ls == Filter(init, p);
    } else {
      assert xs == [];
      assert Filter(q, p) == Filter(init, p) + xs == Filter(init, p);
      assert Filter(r, p) + xs == Filter(r, p);
    }
  }

  /** The sort is stable: the elements of each key keep their original order. */
  lemma {:induction false} SortByStable<T>(s: seq<T>, key: T -> Key, desc: bool, k: Key)
    ensures Filter(SortBy(s, key, desc), HasKey(key, k)) == Filter(s, HasKey(key, k))
  {
    if s != [] {
      SortByStable(s[..|s| - 1], key, desc, k);
      InsertByStable(SortBy(s[..|s| - 1], key, desc), s[|s| - 1], key, desc, k);
    }
  }

  /** Stability for every key at once. */
  lemma SortByStableAll<T>(s: seq<T>, key: T -> Key, desc: bool)
    ensures forall k :: Filter(SortBy(s, key, desc), HasKey(key, k)) == Filter(s, HasKey(key, k))
  {
    forall k
      ensures Filter(SortBy(s, key, desc), HasKey(key, k)) == Filter(s, HasKey(key, k))
    {
      SortByStable(s, key, desc, k);
    }
  }
}
