/** Python's dynamic values, as the Python samples pass them around: None,
    booleans, integers, strings, lists and string-keyed dictionaries.
    Floating-point numbers are not part of the model.
 */
module PyValues {

  datatype Value =
    | PyNone
    | PyBool(b: bool)
    | PyInt(i: int)
    | PyStr(s: string)
    | PyList(items: seq<Value>)
    | PyDict(entries: map<string, Value>)

  /** A dictionary with string keys, such as a data record. */
  type Record = map<string, Value>

  /** isinstance(v, (int, float)): bool is a subclass of int, so True and False count. */
  predicate IsNumber(v: Value)
  {
    v.PyInt? || v.PyBool?
  }

  /** The integer value of a number; True is 1 and False is 0. */
  function NumValue(v: Value): int
    requires IsNumber(v)
  {
    if v.PyInt? then v.i else if v.b then 1 else 0
  }

  /** Python's ==: numbers compare by value (so 1 == True), strings by their
      characters, lists element by element and dictionaries key by key; values
      of different kinds are unequal. */
  predicate PyEq(a: Value, b: Value)
  {
    if IsNumber(a) && IsNumber(b) then NumValue(a) == NumValue(b)
    else match (a, b)
      case (PyNone, PyNone) => true
      case (PyStr(s), PyStr(t)) => s == t
      case (PyList(xs), PyList(ys)) =>
        |xs| == |ys| && forall k :: 0 <= k < |xs| ==> PyEq(xs[k], ys[k])
      case (PyDict(m), PyDict(n)) =>
        m.Keys == n.Keys && forall k :: k in m ==> PyEq(m[k], n[k])
      case _ => false
  }

  /** Python == is reflexive on the modelled values. */
  lemma PyEqReflexive(v: Value)
    ensures PyEq(v, v)
  {
    match v
    case PyList(xs) =>
      forall k | 0 <= k < |xs| ensures PyEq(xs[k], xs[k]) { PyEqReflexive(xs[k]); }
    case PyDict(m) =>
      forall k | k in m ensures PyEq(m[k], m[k]) { PyEqReflexive(m[k]); }
    case _ =>
  }

  /** Python == is symmetric. */
  lemma PyEqSymmetric(a: Value, b: Value)
    requires PyEq(a, b)
    ensures PyEq(b, a)
  {
    if !(IsNumber(a) && IsNumber(b)) {
      match (a, b)
      case (PyList(xs), PyList(ys)) =>
        forall k | 0 <= k < |ys| ensures PyEq(ys[k], xs[k]) { PyEqSymmetric(xs[k], ys[k]); }
      case (PyDict(m), PyDict(n)) =>
        forall k | k in n ensures PyEq(n[k], m[k]) { PyEqSymmetric(m[k], n[k]); }
      case _ =>
    }
  }

  /** dict.get(key): the stored value, or None for an absent key. */
  function Get(r: Record, key: string): (v: Value)
    ensures key !in r ==> v == PyNone
    ensures key in r ==> v == r[key]
  {
    if key in r then r[key] else PyNone
  }

  /** dict.get(key, default): the stored value, or default for an absent key. */
  function GetOr(r: Record, key: string, default: Value): (v: Value)
    ensures key !in r ==> v == default
    ensures key in r ==> v == r[key]
  {
    if key in r then r[key] else default
  }

  /** type(v).__name__ */
  function TypeName(v: Value): string
  {
    match v
    case PyNone => "NoneType"
    case PyBool(_) => "bool"
    case PyInt(_) => "int"
    case PyStr(_) => "str"
    case PyList(_) => "list"
    case PyDict(_) => "dict"
  }

  // ----- Hashing -----

  /** What a hashable value contributes to dictionary and set lookup: equal
      numbers (1 and True) share one key. */
  datatype HashKey = HNone | HNum(n: int) | HStr(s: string)

  /** Lists and dictionaries are unhashable. */
  predicate Hashable(v: Value)
  {
    !v.PyList? && !v.PyDict?
  }

  function HashKeyOf(v: Value): HashKey
    requires Hashable(v)
  {
    if IsNumber(v) then HNum(NumValue(v)) else if v.PyStr? then HStr(v.s) else HNone
  }

  /** Two hashable values land on the same dictionary key exactly when Python ==
      holds between them. */
  lemma HashKeyOfIffEq(a: Value, b: Value)
    requires Hashable(a) && Hashable(b)
    ensures HashKeyOf(a) == HashKeyOf(b) <==> PyEq(a, b)
  {
  }
}
