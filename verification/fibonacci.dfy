/** PromiseSampleProgram.cs: the promise-based Fibonacci program. The `long` arithmetic is unbounded here. */
module PromiseSample {
  import opened Wrappers

  /** `ComputeFibonacci`: 0 and 1 are their own values, every other number the sum of the two before it.
      From a negative argument the recursion only moves further from 0 and 1 and never returns: None. */
  function ComputeFibonacci(n: int): (r: Option<int>)
    ensures r.None? <==> n < 0
    ensures r.Some? ==> r.value >= 0 && (n >= 1 ==> r.value >= 1)
    decreases if n < 0 then 0 else n
  {
    if n < 0 then None
    else if n == 0 then Some(0)
    else if n == 1 then Some(1)
    else Some(ComputeFibonacci(n - 1).value + ComputeFibonacci(n - 2).value)
  }

  /** An independent, iterative computation of the same numbers, with the same answer for a negative
      argument. */
  method Iterative(n: int) returns (r: Option<int>)
    ensures r == ComputeFibonacci(n)
  {
    if n < 0 {
      return None;
    }
    var a, b := 0, 1;
    var i := 0;
    while i < n
      invariant 0 <= i <= n
      invariant Some(a) == ComputeFibonacci(i) && Some(b) == ComputeFibonacci(i + 1)
    {
      a, b := b, a + b;
      i := i + 1;
    }
    r := Some(a);
  }

  /** `Main` with the parsed argument: the computed number and the exit code 0, or None when the
      computation never finishes. */
  function Main(number: int): (r: Option<(int, int)>)
    ensures r.None? <==> number < 0
    ensures r.Some? ==> Some(r.value.0) == ComputeFibonacci(number) && r.value.1 == 0
  {
    match ComputeFibonacci(number)
    case None => None
    case Some(f) => Some((f, 0))
  }
}

/** PromiseCommandLineSample.cs: the `hello` and `fib` commands. */
module PromiseCommandLineSample {
  import opened Wrappers
  import PromiseSample

  /** `HelloWorld`: print the message, twice when echoing, and exit with 0. */
  function HelloWorld(message: string, echo: bool): (r: (seq<string>, int))
    ensures |r.0| == (if echo then 2 else 1) && r.1 == 0
    ensures forall i :: 0 <= i < |r.0| ==> r.0[i] == message
  {
    if echo then ([message, message], 0) else ([message], 0)
  }

  /** `ComputeFibonacci`, a copy of the other sample's: None where the recursion never returns. */
  function ComputeFibonacci(n: int): (r: Option<int>)
    ensures r.None? <==> n < 0
    ensures r.Some? ==> r.value >= 0
    decreases if n < 0 then 0 else n
  {
    if n < 0 then None
    else if n == 0 then Some(0)
    else if n == 1 then Some(1)
    else Some(ComputeFibonacci(n - 1).value + ComputeFibonacci(n - 2).value)
  }

  /** Both samples compute the same numbers, and diverge on the same arguments. */
  lemma {:induction false} AgreesWithPromiseSample(n: int)
    ensures ComputeFibonacci(n) == PromiseSample.ComputeFibonacci(n)
    decreases if n < 0 then 0 else n
  {
    if n >= 2 {
      AgreesWithPromiseSample(n - 1);
      AgreesWithPromiseSample(n - 2);
    }
  }

  /** The `fib` command: the computed number and the exit code 0, or None when it never finishes. */
  function Fibonacci(number: int): (r: Option<(int, int)>)
    ensures r.None? <==> number < 0
    ensures r.Some? ==> Some(r.value.0) == PromiseSample.ComputeFibonacci(number) && r.value.1 == 0
  {
    AgreesWithPromiseSample(number);
    match ComputeFibonacci(number)
    case None => None
    case Some(f) => Some((f, 0))
  }
}
