/** The sample class examples/java/TestClass1.java: an object with an id
    and a name, and a class-wide counter. Dafny classes have no static
    fields, so the counter lives in an object of its own, `Statics`, that
    stands for the class's static state. */
module TestClass1 {
  import opened Utils
  import opened JavaInt

  /** The static state of `TestClass1`. */
  class Statics {
    var staticCounter: I32

    /** The class initializer: `staticCounter` starts at 0. */
    constructor ()
      ensures staticCounter == 0
    {
      staticCounter := 0;
    }

    /** `incrementCounter`: one more, wrapping at `Integer.MAX_VALUE` as
        Java's `++` on an `int` does. */
    method IncrementCounter()
      modifies this
      ensures staticCounter == Wrap(old(staticCounter) + 1)
      ensures old(staticCounter) < 0x7FFF_FFFF ==> staticCounter == old(staticCounter) + 1
    {
      staticCounter := Wrap(staticCounter + 1);
      if old(staticCounter) < 0x7FFF_FFFF {
        WrapUnique(old(staticCounter) + 1, old(staticCounter) + 1);
      }
    }
  }

  class TestClass1 {
    var id: I32
    var name: string

    /** The constructor stores the id and the name as given. */
    constructor (id: I32, name: string)
      ensures this.id == id && this.name == name
    {
      this.id := id;
      this.name := name;
    }

    /** `getName`: the name; no state changes. */
    method GetName() returns (r: string)
      ensures r == name
    {
      return name;
    }

    /** `resetName`: the name becomes "Unnamed" and the id stays. */
    method ResetName()
      modifies this
      ensures name == "Unnamed" && id == old(id)
    {
      name := "Unnamed";
    }
  }
}
