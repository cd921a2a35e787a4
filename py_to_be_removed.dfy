/** python/to_be_removed.py: a constant message, a square and a class whose
    message is set once. */
module PyToBeRemoved {
  import MathSpecs

  /** temporary_function */
  const TemporaryFunction: string := "This file will be deleted later"

  /** another_temp_function: x squared, never negative for an integer. */
  function AnotherTempFunction(x: int): (r: int)
    ensures r == MathSpecs.Pow(x, 2)
    ensures r >= 0
    ensures x != 0 ==> r > 0
  {
    assert MathSpecs.Pow(x, 2) == x * MathSpecs.Pow(x, 1) == x * (x * MathSpecs.Pow(x, 0));
    x * x
  }

  /** TemporaryClass: the message set by the constructor and only read
      afterwards. */
  class TemporaryClass {
    const message: string

    constructor ()
      ensures message == "This class will be removed"
    {
      message := "This class will be removed";
    }

    /** get_message: the message; nothing changes. */
    method GetMessage() returns (r: string)
      ensures r == message
    {
      r := message;
    }
  }
}
