/**
  The pending-buffer counter that consumer-side readers keep for their view: the view adds
  the number of buffers appended, every delivered buffer takes one off.

  An addition signals the reader's scheduler only when it lifts the counter off zero, so a
  burst of additions before the reader runs is coalesced into one wake-up. Taking a buffer
  decrements first and checks afterwards: a negative result is an error, and the decrement
  stays.
 */
module Availability {
  import opened Outcomes

  datatype Added = Added(counter: int, signalled: bool)

  /** `notifyBuffersAvailable(n)`: `getAndAdd` is only reached for a positive `n`. */
  function Add(counter: int, n: int): (r: Added)
    ensures r.signalled <==> n > 0 && counter == 0
    ensures n > 0 ==> r.counter == counter + n
    ensures n <= 0 ==> r.counter == counter
  {
    if n > 0 then Added(counter + n, counter == 0) else Added(counter, false)
  }

  /** The counter after one buffer was taken and whether more are announced; `Err` if none was. */
  datatype Taken = Taken(counter: int, moreAvailable: Result<bool>)

  function Take(counter: int): (r: Taken)
    ensures r.counter == counter - 1
    ensures r.moreAvailable.Ok? <==> counter >= 1
    ensures r.moreAvailable.Ok? ==> (r.moreAvailable.value <==> counter >= 2)
    ensures r.moreAvailable.Err? ==> r.moreAvailable.error == IllegalState("no buffer available")
  {
    var remaining := counter - 1;
    if remaining >= 0 then Taken(remaining, Ok(remaining > 0))
    else Taken(remaining, Err(IllegalState("no buffer available")))
  }

  datatype Op = AddOp(n: int) | TakeOp

  /** The counter and the number of wake-ups after `ops`, applied from the first. */
  datatype Tally = Tally(counter: int, signals: nat)

  function Run(counter: int, ops: seq<Op>): Tally
    decreases |ops|
  {
    if ops == [] then Tally(counter, 0)
    else
      var t := Run(counter, ops[..|ops| - 1]);
      match ops[|ops| - 1]
      case AddOp(n) =>
        var a := Add(t.counter, n);
        Tally(a.counter, t.signals + if a.signalled then 1 else 0)
      case TakeOp => Tally(Take(t.counter).counter, t.signals)
  }

  /** Buffers announced by `ops`: the sum of the positive additions. */
  function Announced(ops: seq<Op>): nat
    decreases |ops|
  {
    if ops == [] then 0
    else Announced(ops[..|ops| - 1]) + match ops[|ops| - 1] { case AddOp(n) => if n > 0 then n else 0 case TakeOp => 0 }
  }

  function Takes(ops: seq<Op>): nat
    decreases |ops|
  {
    if ops == [] then 0
    else Takes(ops[..|ops| - 1]) + if ops[|ops| - 1].TakeOp? then 1 else 0
  }

  /** Nothing is lost or invented: the counter is what was announced minus what was taken. */
  lemma {:induction false} CounterConserved(counter: int, ops: seq<Op>)
    ensures Run(counter, ops).counter == counter + Announced(ops) - Takes(ops)
    decreases |ops|
  {
    if ops != [] {
      CounterConserved(counter, ops[..|ops| - 1]);
    }
  }

  /** Only positive additions, no takes. */
  predicate Burst(ops: seq<Op>) {
    forall k :: 0 <= k < |ops| ==> ops[k].AddOp? && ops[k].n > 0
  }

  /**
    A burst of additions on an empty reader wakes it up exactly once, however long the burst;
    on a reader that already has buffers pending it wakes nobody.
   */
  lemma {:induction false} BurstCoalesced(counter: int, ops: seq<Op>)
    requires counter >= 0 && Burst(ops)
    ensures Run(counter, ops).counter >= counter
    ensures Run(counter, ops).counter > counter <==> |ops| > 0
    ensures Run(counter, ops).signals == if counter == 0 && |ops| > 0 then 1 else 0
    decreases |ops|
  {
    if ops != [] {
      BurstCoalesced(counter, ops[..|ops| - 1]);
    }
  }

  /**
    A reader that takes exactly the buffers announced to it is woken once per time its
    counter returned to zero: alternating single additions and takes wake it every time.
   */
  lemma {:induction false} AlternationSignalsEveryTime(k: nat)
    ensures Run(0, Alternating(k)).counter == 0
    ensures Run(0, Alternating(k)).signals == k
    decreases k
  {
    if k > 0 {
      var ops := Alternating(k);
      assert ops[..|ops| - 1][..|ops| - 2] == Alternating(k - 1);
      AlternationSignalsEveryTime(k - 1);
    }
  }

  /** `k` rounds of one addition followed by one take. */
  function Alternating(k: nat): (ops: seq<Op>)
    ensures |ops| == 2 * k
    decreases k
  {
    if k == 0 then [] else Alternating(k - 1) + [AddOp(1), TakeOp]
  }
}
