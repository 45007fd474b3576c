/** The factorials of lab1/java/HelloWorld.java, in Java `int` arithmetic:
    a recursive and an iterative version. */
module HelloWorld {
  import opened Utils
  import opened JavaInt

  /** The mathematical factorial. */
  function Factorial(n: nat): (r: nat)
    ensures r >= 1
  {
    if n == 0 then 1 else n * Factorial(n - 1)
  }

  /** `recursive_factorial`: 1 for 0 and 1, otherwise `n` times the factorial
      of `n - 1`, the product wrapping to 32 bits. For a negative `n` the
      Java method never reaches its base case. */
  function RecursiveFactorial(n: I32): (r: I32)
    requires n >= 0
    decreases n
  {
    if n == 0 || n == 1 then 1 else Wrap(n * RecursiveFactorial(n - 1))
  }

  /** The recursive version is the factorial reduced to 32 bits. */
  lemma {:induction false} RecursiveIsFactorial(n: I32)
    requires n >= 0
    ensures RecursiveFactorial(n) == Wrap(Factorial(n))
    decreases n
  {
    if n >= 2 {
      RecursiveIsFactorial(n - 1);
      WrapMul(Factorial(n - 1), n);
      assert Wrap(Factorial(n - 1)) * n == n * RecursiveFactorial(n - 1);
    } else {
      assert Factorial(n) == 1;
    }
  }

  /** `iterative_factorial`: start from 1 and multiply by 2, 3, ..., `n`,
      each product wrapping to 32 bits; 1 when `n` is below 2. For
      `n == Integer.MAX_VALUE` the Java loop counter wraps and the loop does
      not end, so that input is excluded. */
  method IterativeFactorial(n: I32) returns (r: I32)
    requires n < 0x7FFF_FFFF
    ensures n < 2 ==> r == 1
    ensures n >= 0 ==> r == Wrap(Factorial(n)) && r == RecursiveFactorial(n)
  {
    var result: I32 := 1;
    var i: I32 := 2;
    while i <= n
      invariant 2 <= i && (n >= 2 ==> i <= n + 1) && (n < 2 ==> i == 2)
      invariant result == Wrap(Factorial(i - 1))
      decreases n - i
    {
      WrapMul(Factorial(i - 1), i);
      assert Factorial(i) == Factorial(i - 1) * i;
      result := Wrap(result * i);
      i := i + 1;
    }
    if n < 2 {
      assert result == Wrap(1);
      WrapUnique(1, 1);
    }
    if n >= 0 {
      assert n < 2 ==> Factorial(n) == 1;
      assert n >= 2 ==> i - 1 == n;
      RecursiveIsFactorial(n);
    }
    return result;
  }

  /** `main` prints both factorials of 5: 120 each. */
  lemma FactorialOfFive()
    ensures RecursiveFactorial(5) == 120
    ensures Wrap(Factorial(5)) == 120
  {
    RecursiveIsFactorial(5);
    assert Factorial(5) == 120;
    WrapUnique(120, 120);
  }

  /** 13! is the first factorial that no longer fits: Java's `int`
      factorial of 13 is 1932053504, not 6227020800. */
  lemma ThirteenWraps()
    ensures RecursiveFactorial(13) == 1932053504 != Factorial(13)
  {
    RecursiveIsFactorial(13);
    assert Factorial(13) == 6227020800;
    assert 1932053504 - 6227020800 == -TWO_32;
    WrapUnique(6227020800, 1932053504);
  }
}
