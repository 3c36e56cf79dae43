/**
  The subpartition as the result partition and the pipelined view see it: an abstract,
  single-producer FIFO queue of buffers with finished and released flags.

  The concrete pipelined and spillable subpartitions are not part of this model. Whether
  an `add` is accepted (capacity bounds, state checks) and how much memory a subpartition
  frees are decided by those classes, so the model receives both as inputs.
 */
module Subpartitions {
  import opened Outcomes
  import opened Buffers

  /** The implementation chosen by the partition type; 0 means an unbounded pipelined queue. */
  datatype Variant = Spillable | PipelinedQueue(maxQueueLength: int)

  datatype Subpartition = Subpartition(
    index: nat,
    variant: Variant,
    queue: seq<Buffer>,
    finished: bool,
    released: bool)

  function Create(index: nat, variant: Variant): (s: Subpartition)
    ensures s.index == index && s.variant == variant
    ensures s.queue == [] && !s.finished && !s.released
  {
    Subpartition(index, variant, [], false, false)
  }

  /** Hands `b` to the subpartition, which appends it exactly when it accepts it. */
  function Offer(s: Subpartition, b: Buffer, accepted: bool): (r: Subpartition)
    ensures accepted ==> r.queue == s.queue + [b]
    ensures !accepted ==> r == s
    ensures r.(queue := s.queue) == s
  {
    if accepted then s.(queue := s.queue + [b]) else s
  }

  /** No more appends; queued buffers stay readable. */
  function Finish(s: Subpartition): (r: Subpartition)
    ensures r.finished && r.queue == s.queue
    ensures r.(finished := s.finished) == s
  {
    s.(finished := true)
  }

  /** Drops (and recycles) every queued buffer and marks the subpartition released. */
  function Release(s: Subpartition): (r: Subpartition)
    ensures r.released && r.queue == []
    ensures r.index == s.index && r.variant == s.variant && r.finished == s.finished
  {
    s.(queue := [], released := true)
  }

  /** The subpartition after a poll and the buffer taken from its head, if there was one. */
  datatype Polled = Polled(subpartition: Subpartition, next: Option<Buffer>)

  /** Removes the head of the queue. */
  function Poll(s: Subpartition): (r: Polled)
    ensures s.queue == [] ==> r.next == None && r.subpartition == s
    ensures s.queue != [] ==>
      r.next == Some(s.queue[0]) && [s.queue[0]] + r.subpartition.queue == s.queue
    ensures r.subpartition.(queue := s.queue) == s
  {
    if s.queue == [] then Polled(s, None)
    else Polled(s.(queue := s.queue[1..]), Some(s.queue[0]))
  }
}
