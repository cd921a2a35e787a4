/** python/old_name.py: a sum, a constant message and a class with a mutable
    name. */
module PyOldName {
  import SeqSpecs

  /** will_be_renamed_function: the sum of its two arguments. */
  function WillBeRenamedFunction(a: int, b: int): (r: int)
    ensures r == SeqSpecs.Sum([a, b])
  {
    SeqSpecs.PairTotals(a, b);
    a + b
  }

  /** another_function */
  const AnotherFunction: string := "This file will be renamed later"

  /** TestClass: a name that set_name replaces. */
  class TestClass {
    var name: string

    /** The constructor stores the name. */
    constructor (name: string)
      ensures this.name == name
    {
      this.name := name;
    }

    /** get_name: the stored name; nothing changes. */
    method GetName() returns (r: string)
      ensures r == name
    {
      r := name;
    }

    /** set_name: the name is replaced, so get_name returns the new one. */
    method SetName(newName: string)
      modifies this
      ensures name == newName
    {
      name := newName;
    }
  }
}
