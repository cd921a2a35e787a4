/** python/language_features.py: a memoising decorator, decorators that
    rewrite string results, the Fibonacci and counting generators, two
    validating descriptors and a class with validating property setters.

    A decorator becomes a function from the wrapped function to its wrapper;
    a generator that stops becomes a method returning the values it yields
    and the endless one an object whose Next method is next(); the instance
    attributes a descriptor reads and writes are the attribute dictionary of
    a PyObject.
 */
module PyLanguageFeatures {
  import opened Outcomes
  import opened PyValues
  import opened Text
  import MathSpecs

  // ----- memoize -----

  /** memoize(func): the wrapper and its cache. The ghost calls record the
      arguments func has been called with, in order. */
  class Memoized<K(==,!new), V> {
    const func: K -> V
    var cache: map<K, V>
    ghost var calls: seq<K>

    /** Every cached result is func's result, the cache holds exactly the
        arguments func was called with, and no argument was passed twice. */
    ghost predicate Valid()
      reads this
    {
      (forall k :: k in cache ==> cache[k] == func(k))
      && (forall k :: k in cache <==> k in calls)
      && (forall i, j :: 0 <= i < j < |calls| ==> calls[i] != calls[j])
    }

    /** A fresh wrapper has an empty cache and has not called func. */
    constructor (func: K -> V)
      ensures Valid()
      ensures this.func == func && cache == map[] && calls == []
    {
      this.func := func;
      cache := map[];
      calls := [];
    }

    /** wrapper(key): func's result for key; func is called only when key is
        not cached yet, and the result is then cached. */
    method Call(key: K) returns (r: V)
      requires Valid()
      modifies this
      ensures Valid()
      ensures r == func(key)
      ensures key in old(cache) ==> cache == old(cache) && calls == old(calls)
      ensures key !in old(cache) ==> cache == old(cache)[key := func(key)] && calls == old(calls) + [key]
    {
      if key !in cache {
        cache := cache[key := func(key)];
        calls := calls + [key];
      }
      r := cache[key];
    }
  }

  // ----- decorator_with_arguments and ClassDecorator -----

  /** decorator_with_arguments(prefix, suffix)(func): a string result gets
      prefix and suffix around it; any other result passes through. */
  function DecoratorWithArguments<A(!new)>(func: A -> Value, prefix: string := "", suffix: string := ""): (wrapper: A -> Value)
    ensures forall x :: func(x).PyStr? ==> wrapper(x) == PyStr(prefix + func(x).s + suffix)
    ensures forall x :: !func(x).PyStr? ==> wrapper(x) == func(x)
  {
    x => var result := func(x); if result.PyStr? then PyStr(prefix + result.s + suffix) else result
  }

  /** format_string: the identity decorated with prefix "<" and suffix ">". */
  function FormatString(s: Value): (r: Value)
    ensures s.PyStr? ==> r.PyStr? && |r.s| == |s.s| + 2 && r.s[0] == '<' && r.s[|r.s| - 1] == '>' && r.s[1..|r.s| - 1] == s.s
    ensures !s.PyStr? ==> r == s
  {
    var r := DecoratorWithArguments((x: Value) => x, "<", ">")(s);
    assert s.PyStr? ==> r.s == "<" + s.s + ">";
    r
  }

  /** ClassDecorator(func).__call__: a string result is upper-cased; any
      other result passes through. */
  function ClassDecorator<A(!new)>(func: A -> Value): (call: A -> Value)
    ensures forall x :: func(x).PyStr? ==> call(x) == PyStr(Upper(func(x).s))
    ensures forall x :: !func(x).PyStr? ==> call(x) == func(x)
  {
    x => var result := func(x); if result.PyStr? then PyStr(Upper(result.s)) else result
  }

  /** lowercase_function, decorated with ClassDecorator: the upper-casing
      undoes the lower-casing, so the result is the upper-cased argument. */
  function LowercaseFunction(s: string): (r: Value)
    ensures r == PyStr(Upper(s))
  {
    UpperAfterLower(s);
    ClassDecorator((t: string) => PyStr(Lower(t)))(s)
  }

  // ----- Generators -----

  /** fibonacci_generator(n): the values it yields, max(n, 0) of them, the
      Fibonacci numbers from 0. */
  method FibonacciGenerator(n: int) returns (values: seq<int>)
    ensures MathSpecs.IsFibPrefix(values, if n < 0 then 0 else n)
    ensures |values| >= 1 ==> values[0] == 0
    ensures |values| >= 2 ==> values[1] == 1
    ensures forall k :: 2 <= k < |values| ==> values[k] == values[k - 1] + values[k - 2]
  {
    var a, b := 0, 1;
    values := [];
    var count := if n < 0 then 0 else n;
    for k := 0 to count
      invariant MathSpecs.IsFibPrefix(values, k)
      invariant a == MathSpecs.Fib(k) && b == MathSpecs.Fib(k + 1)
    {
      values := values + [a];
      a, b := b, a + b;
    }
    MathSpecs.FibPrefixRecurrence(values, count);
  }

  /** infinite_counter(start, step): a suspended generator. value is the next
      value to yield; the ghost yielded counts the values yielded so far. */
  class InfiniteCounter {
    const start: int
    const step: int
    var value: int
    ghost var yielded: nat

    ghost predicate Valid()
      reads this
    {
      value == start + yielded * step
    }

    /** A new generator has yielded nothing. */
    constructor (start: int := 0, step: int := 1)
      ensures Valid()
      ensures this.start == start && this.step == step && yielded == 0
    {
      this.start := start;
      this.step := step;
      value := start;
      yielded := 0;
    }

    /** next(): the k-th value yielded, counting from 0, is start + k * step. */
    method Next() returns (r: int)
      requires Valid()
      modifies this
      ensures Valid()
      ensures r == start + old(yielded) * step
      ensures yielded == old(yielded) + 1
    {
      r := value;
      value := value + step;
      yielded := yielded + 1;
    }
  }

  // ----- Descriptors -----

  /** An object whose instance attributes a descriptor reads and writes. */
  class PyObject {
    const className: string
    var attrs: map<string, Value>

    constructor (className: string)
      ensures this.className == className && attrs == map[]
    {
      this.className := className;
      attrs := map[];
    }
  }

  /** getattr(instance, name): the attribute, or AttributeError when it was
      never set. */
  function GetAttribute(instance: PyObject, name: string): (r: Result<Value>)
    reads instance
    ensures name in instance.attrs ==> r == Ok(instance.attrs[name])
    ensures name !in instance.attrs ==> r == Err(AttributeError, "'" + instance.className + "' object has no attribute '" + name + "'")
  {
    if name in instance.attrs then Ok(instance.attrs[name])
    else Err(AttributeError, "'" + instance.className + "' object has no attribute '" + name + "'")
  }

  /** The classes a TypedProperty can require. */
  datatype PyType = NoneType | BoolType | IntType | StrType | ListType | DictType

  function TypeOf(v: Value): (t: PyType)
  {
    match v
    case PyNone => NoneType
    case PyBool(_) => BoolType
    case PyInt(_) => IntType
    case PyStr(_) => StrType
    case PyList(_) => ListType
    case PyDict(_) => DictType
  }

  /** The repr of a class, as "<class 'int'>". */
  function ClassRepr(t: PyType): string
  {
    "<class '" + (match t
      case NoneType => "NoneType"
      case BoolType => "bool"
      case IntType => "int"
      case StrType => "str"
      case ListType => "list"
      case DictType => "dict") + "'>"
  }

  /** isinstance(v, t): the class of v, or int for a bool, since bool is a
      subclass of int. */
  predicate IsInstance(v: Value, t: PyType)
  {
    TypeOf(v) == t || (t == IntType && v.PyBool?)
  }

  /** The type check of TypedProperty.__set__: a TypeError naming both
      classes unless value is an instance of t; booleans pass for int. */
  function TypeCheck(value: Value, t: PyType): (o: Outcome)
    ensures o.Pass? <==> TypeOf(value) == t || (t == IntType && TypeOf(value) == BoolType)
    ensures o.Fail? ==> o == Fail(TypeError, "Expected " + ClassRepr(t) + ", got " + ClassRepr(TypeOf(value)))
  {
    if IsInstance(value, t) then Pass
    else Fail(TypeError, "Expected " + ClassRepr(t) + ", got " + ClassRepr(TypeOf(value)))
  }

  /** TypedProperty(name, property_type): stores under "_" + name. */
  class TypedProperty {
    const name: string
    const propertyType: PyType

    constructor (name: string, propertyType: PyType)
      ensures this.name == "_" + name && this.propertyType == propertyType
    {
      this.name := "_" + name;
      this.propertyType := propertyType;
    }

    /** __get__ for an instance: the stored attribute. */
    function Get(instance: PyObject): (r: Result<Value>)
      reads instance
      ensures r.Ok? <==> name in instance.attrs
      ensures r.Ok? ==> r.value == instance.attrs[name]
    {
      GetAttribute(instance, name)
    }

    /** __set__: a value of the wrong type raises TypeError and stores
        nothing; any other value is stored, so a later Get returns it. */
    method Set(instance: PyObject, value: Value) returns (o: Outcome)
      modifies instance
      ensures o == TypeCheck(value, propertyType)
      ensures o.Fail? ==> instance.attrs == old(instance.attrs)
      ensures o.Pass? ==> instance.attrs == old(instance.attrs)[name := value]
      ensures o.Pass? ==> Get(instance) == Ok(value)
    {
      o := TypeCheck(value, propertyType);
      if o.Pass? {
        instance.attrs := instance.attrs[name := value];
      }
    }
  }

  /** The range check of RangeProperty.__set__: below a given minimum or above
      a given maximum raises ValueError, the minimum checked first; the bounds
      themselves are accepted. */
  function RangeCheck(value: int, minValue: Option<int>, maxValue: Option<int>): (o: Outcome)
    ensures o.Pass? <==> (minValue.None? || minValue.value <= value) && (maxValue.None? || value <= maxValue.value)
    ensures minValue.Some? && value < minValue.value ==> o == Fail(ValueError, "Value must be >= " + IntToString(minValue.value))
    ensures (minValue.None? || minValue.value <= value) && maxValue.Some? && value > maxValue.value
            ==> o == Fail(ValueError, "Value must be <= " + IntToString(maxValue.value))
  {
    if minValue.Some? && value < minValue.value then Fail(ValueError, "Value must be >= " + IntToString(minValue.value))
    else if maxValue.Some? && value > maxValue.value then Fail(ValueError, "Value must be <= " + IntToString(maxValue.value))
    else Pass
  }

  /** RangeProperty(name, min_value, max_value): stores under "_" + name. */
  class RangeProperty {
    const name: string
    const minValue: Option<int>
    const maxValue: Option<int>

    constructor (name: string, minValue: Option<int> := None, maxValue: Option<int> := None)
      ensures this.name == "_" + name && this.minValue == minValue && this.maxValue == maxValue
    {
      this.name := "_" + name;
      this.minValue := minValue;
      this.maxValue := maxValue;
    }

    /** __get__ for an instance: the stored attribute. */
    function Get(instance: PyObject): (r: Result<Value>)
      reads instance
      ensures r.Ok? <==> name in instance.attrs
      ensures r.Ok? ==> r.value == instance.attrs[name]
    {
      GetAttribute(instance, name)
    }

    /** __set__: a value out of range raises ValueError and stores nothing;
        any other value is stored. */
    method Set(instance: PyObject, value: int) returns (o: Outcome)
      modifies instance
      ensures o == RangeCheck(value, minValue, maxValue)
      ensures o.Fail? ==> instance.attrs == old(instance.attrs)
      ensures o.Pass? ==> instance.attrs == old(instance.attrs)[name := PyInt(value)]
      ensures o.Pass? ==> Get(instance) == Ok(PyInt(value))
    {
      o := RangeCheck(value, minValue, maxValue);
      if o.Pass? {
        instance.attrs := instance.attrs[name := PyInt(value)];
      }
    }
  }

  // ----- Person -----

  /** Person: a name and an age behind validating setters. */
  class Person {
    var name: string
    var age: int

    /** The constructor stores both values without validating them. */
    constructor (name: string, age: int)
      ensures this.name == name && this.age == age
    {
      this.name := name;
      this.age := age;
    }

    /** The name setter: an empty name raises ValueError and keeps the old
        name; the age is never touched. */
    method SetName(value: string) returns (o: Outcome)
      modifies this
      ensures value == "" ==> o == Fail(ValueError, "Name cannot be empty") && name == old(name)
      ensures value != "" ==> o == Pass && name == value
      ensures age == old(age)
    {
      if value == "" {
        return Fail(ValueError, "Name cannot be empty");
      }
      name := value;
      o := Pass;
    }

    /** The age setter: a negative age raises ValueError and keeps the old
        age; the name is never touched. */
    method SetAge(value: int) returns (o: Outcome)
      modifies this
      ensures value < 0 ==> o == Fail(ValueError, "Age cannot be negative") && age == old(age)
      ensures value >= 0 ==> o == Pass && age == value
      ensures name == old(name)
    {
      if value < 0 {
        return Fail(ValueError, "Age cannot be negative");
      }
      age := value;
      o := Pass;
    }

    /** is_adult: True exactly when the age is at least 18; nothing changes. */
    method IsAdult() returns (b: bool)
      ensures b <==> age >= 18
    {
      b := age >= 18;
    }
  }
}
