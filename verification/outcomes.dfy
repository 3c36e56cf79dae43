/**
  Failure-compatible result types shared by every component of the shuffle model.

  Java exceptions of the network stack become `Err` values carrying the exception's
  class and the message the code supplies; where the code supplies none (a bare argument
  check, an index the runtime itself rejects) the message is empty.
 */
module Outcomes {

  /** The exception classes the modelled code raises. */
  datatype Error =
    | IllegalState(message: string)
    | IllegalArgument(message: string)
    | IndexOutOfBounds(message: string)
    | NegativeArraySize
    | NullPointer
    | IOFailure(message: string)

  datatype Option<+T> = None | Some(value: T)

  datatype Result<+T> = Ok(value: T) | Err(error: Error) {
    predicate IsFailure() {
      Err?
    }

    function PropagateFailure<U>(): Result<U>
      requires Err?
    {
      Err(error)
    }

    function Extract(): T
      requires Ok?
    {
      value
    }
  }

  /** Number of occurrences of `x` in `s`; used to count emitted notifications. */
  function Count<T(==)>(s: seq<T>, x: T): (n: nat)
    ensures n <= |s|
    ensures n == 0 <==> x !in s
  {
    if s == [] then 0
    else Count(s[..|s| - 1], x) + (if s[|s| - 1] == x then 1 else 0)
  }

  lemma {:induction false} CountAppend<T>(a: seq<T>, b: seq<T>, x: T)
    ensures Count(a + b, x) == Count(a, x) + Count(b, x)
    decreases |b|
  {
    if b == [] {
      assert a + b == a;
    } else {
      var b' := b[..|b| - 1];
      assert (a + b)[..|a + b| - 1] == a + b';
      assert (a + b)[|a + b| - 1] == b[|b| - 1];
      CountAppend(a, b', x);
    }
  }

  /** Concatenation regroups freely; stated once so proofs about traces can cite it cheaply. */
  lemma AppendAssociative<T>(a: seq<T>, b: seq<T>, c: seq<T>)
    ensures (a + b) + c == a + (b + c)
  {
  }
}
