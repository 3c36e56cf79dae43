/**
  The result partition: the output of one producing task, split into one subpartition
  per consumer, with a produce -> finish -> release lifecycle, a pin counter that gates
  release, a set-once release with the first failure cause, and a one-shot
  "consumers may be scheduled" latch.

  Every guarded method of the Java class is one atomic transition here. A transition
  returns the new partition, the calls it makes on its collaborators (`Effect`s, in
  order) and its result; a Java exception is an `Err` result, and the partition it
  returns with an error carries every change made before the exception was thrown.
 */
module ResultPartitions {
  import opened Outcomes
  import opened Buffers
  import Subpartitions

  datatype Kind = Blocking | Pipelined | PipelinedBounded {
    /** Pipelined results deploy consumers with the first buffer, blocking ones after finish. */
    predicate IsPipelined() {
      !Blocking?
    }
  }

  /** The registered pool: its guaranteed segments and whether this partition owns it. */
  datatype BufferPool = BufferPool(requiredSegments: int, ownedByPartition: bool)

  /** Identity of a failure cause (a Java throwable). */
  type Cause = string

  datatype Partition = Partition(
    kind: Kind,
    hasBackPressure: bool,
    sendScheduleOrUpdateConsumersMessage: bool,
    subpartitions: seq<Subpartitions.Subpartition>,
    isReleased: bool,
    pendingReferences: int,
    bufferPool: Option<BufferPool>,
    hasNotifiedPipelinedConsumers: bool,
    isFinished: bool,
    cause: Option<Cause>,
    totalNumberOfBuffers: int,
    totalNumberOfBytes: int)

  /** Calls on collaborators, in the order the partition makes them. */
  datatype Effect =
    | NotifyPartitionConsumable
    | NotifyManagerConsumed
    | RecycleBuffer(buffer: Buffer)
    | ReleaseSubpartition(index: nat)

  datatype Step<+T> = Step(partition: Partition, effects: seq<Effect>, result: Result<T>)

  function NumberOfSubpartitions(p: Partition): nat {
    |p.subpartitions|
  }

  /** The subpartition implementation each partition type uses. */
  function VariantFor(kind: Kind, pipelinedBoundedQueueLength: int): Subpartitions.Variant {
    match kind
    case Blocking => Subpartitions.Spillable
    case Pipelined => Subpartitions.PipelinedQueue(0)
    case PipelinedBounded => Subpartitions.PipelinedQueue(pipelinedBoundedQueueLength)
  }

  /** Everything but the subpartition queues and the statistics is the same in `p` and `q`. */
  predicate SameLifecycle(p: Partition, q: Partition) {
    && q.kind == p.kind
    && q.hasBackPressure == p.hasBackPressure
    && q.sendScheduleOrUpdateConsumersMessage == p.sendScheduleOrUpdateConsumersMessage
    && q.isReleased == p.isReleased
    && q.pendingReferences == p.pendingReferences
    && q.bufferPool == p.bufferPool
    && q.isFinished == p.isFinished
    && q.cause == p.cause
  }

  /** True when the partition still has to tell its consumers that data is available. */
  predicate ConsumersPending(p: Partition) {
    p.sendScheduleOrUpdateConsumersMessage && !p.hasNotifiedPipelinedConsumers && p.kind.IsPipelined()
  }

  /**
    The pin: every subpartition has to be consumed once more before release. It fails on
    a negative count, which the class documents as the released marker.
   */
  function Pin(p: Partition): (r: Result<Partition>)
    ensures r.Ok? <==> p.pendingReferences >= 0
    ensures r.Ok? ==> r.value.pendingReferences == p.pendingReferences + NumberOfSubpartitions(p)
    ensures r.Ok? ==> r.value.(pendingReferences := p.pendingReferences) == p
    ensures r.Err? ==> r.error == IllegalState("Released.")
  {
    if p.pendingReferences >= 0 then
      Ok(p.(pendingReferences := p.pendingReferences + |p.subpartitions|))
    else Err(IllegalState("Released."))
  }

  /**
    The constructor: one fresh subpartition per consumer, of the variant the type asks for,
    and the initial pin. A negative count fails while allocating the subpartition array.
   */
  function Create(
    kind: Kind,
    numberOfSubpartitions: int,
    hasBackPressure: bool,
    sendScheduleOrUpdateConsumersMessage: bool,
    pipelinedBoundedQueueLength: int): (r: Result<Partition>)
    ensures r.Ok? <==> numberOfSubpartitions >= 0
    ensures r.Ok? ==> NumberOfSubpartitions(r.value) == numberOfSubpartitions
    ensures r.Ok? ==> r.value.pendingReferences == numberOfSubpartitions
    ensures r.Ok? ==> forall i :: 0 <= i < numberOfSubpartitions ==>
      r.value.subpartitions[i] == Subpartitions.Create(i, VariantFor(kind, pipelinedBoundedQueueLength))
    ensures r.Ok? ==> r.value.kind == kind && r.value.hasBackPressure == hasBackPressure
    ensures r.Ok? ==> r.value.sendScheduleOrUpdateConsumersMessage == sendScheduleOrUpdateConsumersMessage
    ensures r.Ok? ==> !r.value.isReleased && !r.value.isFinished && !r.value.hasNotifiedPipelinedConsumers
    ensures r.Ok? ==> r.value.bufferPool == None && r.value.cause == None
    ensures r.Ok? ==> r.value.totalNumberOfBuffers == 0 && r.value.totalNumberOfBytes == 0
    ensures r.Err? ==> r.error == NegativeArraySize
  {
    if numberOfSubpartitions < 0 then Err(NegativeArraySize)
    else
      var variant := VariantFor(kind, pipelinedBoundedQueueLength);
      var subpartitions := seq(numberOfSubpartitions, (i: nat) => Subpartitions.Create(i, variant));
      var unpinned := Partition(
        kind, hasBackPressure, sendScheduleOrUpdateConsumersMessage, subpartitions,
        false, 0, None, false, false, None, 0, 0);
      Pin(unpinned)
  }

  /** The messages `registerBufferPool` fails with. */
  const PoolTooSmall := "Bug in result partition setup logic: Buffer pool has not enough guaranteed buffers for this result partition."
  const PoolRegistered := "Bug in result partition setup logic: Already registered buffer pool."

  /**
    Binds the buffer pool once. The pool must guarantee a segment per subpartition (checked
    first), and a back-pressure-free partition registers itself as the pool's owner so the
    pool can ask it to release memory.
   */
  function RegisterBufferPool(p: Partition, requiredSegments: int): (r: Result<Partition>)
    ensures r.Ok? <==> requiredSegments >= NumberOfSubpartitions(p) && p.bufferPool == None
    ensures requiredSegments < NumberOfSubpartitions(p) ==> r == Err(IllegalArgument(PoolTooSmall))
    ensures requiredSegments >= NumberOfSubpartitions(p) && p.bufferPool.Some? ==>
      r == Err(IllegalState(PoolRegistered))
    ensures r.Ok? ==> r.value.bufferPool.Some?
    ensures r.Ok? ==> r.value.bufferPool.value.requiredSegments == requiredSegments
    ensures r.Ok? ==> (r.value.bufferPool.value.ownedByPartition <==> !p.hasBackPressure)
    ensures r.Ok? ==> r.value.(bufferPool := None) == p
  {
    if requiredSegments < |p.subpartitions| then
      Err(IllegalArgument(PoolTooSmall))
    else if p.bufferPool.Some? then
      Err(IllegalState(PoolRegistered))
    else
      Ok(p.(bufferPool := Some(BufferPool(requiredSegments, !p.hasBackPressure))))
  }

  /** The produce-state check guarding every append and finish. */
  function CheckInProduceState(p: Partition): (r: Result<()>)
    ensures r.Ok? <==> !p.isFinished
  {
    if p.isFinished then Err(IllegalState("Partition already finished.")) else Ok(())
  }

  /** Sends the consumable notification once, and only for pipelined results. */
  function NotifyPipelinedConsumers(p: Partition): (r: (Partition, seq<Effect>))
    ensures ConsumersPending(p) ==> r.1 == [NotifyPartitionConsumable]
    ensures !ConsumersPending(p) ==> r.1 == [] && r.0 == p
    ensures r.0.hasNotifiedPipelinedConsumers == (p.hasNotifiedPipelinedConsumers || ConsumersPending(p))
    ensures r.0.(hasNotifiedPipelinedConsumers := p.hasNotifiedPipelinedConsumers) == p
  {
    if ConsumersPending(p) then (p.(hasNotifiedPipelinedConsumers := true), [NotifyPartitionConsumable])
    else (p, [])
  }

  /** Hands `buffer` to subpartition `index` and counts it, whether or not it was accepted. */
  function Enqueue(p: Partition, buffer: Buffer, index: nat, accepted: bool): Partition
    requires index < |p.subpartitions|
  {
    p.(subpartitions := p.subpartitions[index := Subpartitions.Offer(p.subpartitions[index], buffer, accepted)],
       totalNumberOfBuffers := p.totalNumberOfBuffers + 1,
       totalNumberOfBytes := p.totalNumberOfBytes + Size(buffer))
  }

  /**
    `add`: the subpartition decides (`accepted`) whether it takes the buffer. The statistics
    count the buffer either way; a rejected buffer, and a buffer offered in the wrong state or
    to a missing subpartition, is recycled and nobody is notified.
   */
  function Add(p: Partition, buffer: Buffer, index: int, accepted: bool): (s: Step<()>)
    ensures s.result.Ok? <==> !p.isFinished && 0 <= index < NumberOfSubpartitions(p)
    ensures p.isFinished ==> s.result == Err(IllegalState("Partition already finished."))
    ensures s.result.Err? ==> s.partition == p && s.effects == [RecycleBuffer(buffer)]
    ensures s.result.Ok? ==> SameLifecycle(p, s.partition)
    ensures s.result.Ok? ==>
      s.partition.hasNotifiedPipelinedConsumers == (p.hasNotifiedPipelinedConsumers || (accepted && ConsumersPending(p)))
    ensures s.result.Ok? ==> s.partition.totalNumberOfBuffers == p.totalNumberOfBuffers + 1
    ensures s.result.Ok? ==> s.partition.totalNumberOfBytes == p.totalNumberOfBytes + Size(buffer)
    ensures s.result.Ok? ==> NumberOfSubpartitions(s.partition) == NumberOfSubpartitions(p)
    ensures s.result.Ok? && accepted ==>
      s.partition.subpartitions[index].queue == p.subpartitions[index].queue + [buffer]
    ensures s.result.Ok? && !accepted ==>
      s.partition.subpartitions[index] == p.subpartitions[index]
    ensures s.result.Ok? ==> forall j :: 0 <= j < NumberOfSubpartitions(p) && j != index ==>
      s.partition.subpartitions[j] == p.subpartitions[j]
    ensures s.result.Ok? && !accepted ==> s.effects == [RecycleBuffer(buffer)]
    ensures s.result.Ok? && accepted ==>
      s.effects == (if ConsumersPending(p) then [NotifyPartitionConsumable] else [])
  {
    if p.isFinished then Step(p, [RecycleBuffer(buffer)], Err(IllegalState("Partition already finished.")))
    else if index < 0 || index >= |p.subpartitions| then Step(p, [RecycleBuffer(buffer)], Err(IndexOutOfBounds("")))
    else
      var q := Enqueue(p, buffer, index, accepted);
      if accepted then
        var (q', effects) := NotifyPipelinedConsumers(q);
        Step(q', effects, Ok(()))
      else Step(q, [RecycleBuffer(buffer)], Ok(()))
  }

  /**
    `addBufferIfCapacityAvailable`: the statistics count the buffer only when the subpartition
    took it; on any failure the caller keeps the buffer, so nothing is recycled here.
   */
  function AddBufferIfCapacityAvailable(p: Partition, buffer: Buffer, index: int, accepted: bool): (s: Step<bool>)
    ensures s.result.Ok? <==> !p.isFinished && 0 <= index < NumberOfSubpartitions(p)
    ensures p.isFinished ==> s.result == Err(IllegalState("Partition already finished."))
    ensures s.result.Err? ==> s.partition == p && s.effects == []
    ensures s.result.Ok? ==> s.result.value == accepted
    ensures s.result.Ok? && !accepted ==> s.partition == p && s.effects == []
    ensures s.result.Ok? && accepted ==> SameLifecycle(p, s.partition)
    ensures s.result.Ok? ==>
      s.partition.hasNotifiedPipelinedConsumers == (p.hasNotifiedPipelinedConsumers || (accepted && ConsumersPending(p)))
    ensures s.result.Ok? && accepted ==>
      && s.partition.totalNumberOfBuffers == p.totalNumberOfBuffers + 1
      && s.partition.totalNumberOfBytes == p.totalNumberOfBytes + Size(buffer)
      && NumberOfSubpartitions(s.partition) == NumberOfSubpartitions(p)
      && s.partition.subpartitions[index].queue == p.subpartitions[index].queue + [buffer]
      && s.effects == (if ConsumersPending(p) then [NotifyPartitionConsumable] else [])
    ensures s.result.Ok? && accepted ==> forall j :: 0 <= j < NumberOfSubpartitions(p) && j != index ==>
      s.partition.subpartitions[j] == p.subpartitions[j]
  {
    if p.isFinished then Step(p, [], Err(IllegalState("Partition already finished.")))
    else if index < 0 || index >= |p.subpartitions| then Step(p, [], Err(IndexOutOfBounds("")))
    else if accepted then
      var (q, effects) := NotifyPipelinedConsumers(Enqueue(p, buffer, index, true));
      Step(q, effects, Ok(true))
    else Step(p, [], Ok(false))
  }

  /** `finish`: finishes every subpartition, then marks the partition finished and notifies. */
  function Finish(p: Partition): (s: Step<()>)
    ensures s.result.Ok? <==> !p.isFinished
    ensures s.result.Err? ==> s.partition == p && s.effects == [] && s.result.error.IllegalState?
    ensures s.result.Ok? ==> s.partition.isFinished
    ensures s.result.Ok? ==> NumberOfSubpartitions(s.partition) == NumberOfSubpartitions(p)
    ensures s.result.Ok? ==> forall i :: 0 <= i < NumberOfSubpartitions(p) ==>
      s.partition.subpartitions[i].finished && s.partition.subpartitions[i].queue == p.subpartitions[i].queue
    ensures s.result.Ok? ==> s.effects == (if ConsumersPending(p) then [NotifyPartitionConsumable] else [])
    ensures s.result.Ok? ==> s.partition.hasNotifiedPipelinedConsumers == (p.hasNotifiedPipelinedConsumers || ConsumersPending(p))
    ensures s.result.Ok? ==> s.partition.(subpartitions := p.subpartitions, isFinished := false,
      hasNotifiedPipelinedConsumers := p.hasNotifiedPipelinedConsumers) == p
  {
    match CheckInProduceState(p)
    case Err(e) => Step(p, [], Err(e))
    case Ok(_) =>
      var finished := seq(|p.subpartitions|, i requires 0 <= i < |p.subpartitions| =>
        Subpartitions.Finish(p.subpartitions[i]));
      var (q, effects) := NotifyPipelinedConsumers(p.(subpartitions := finished, isFinished := true));
      Step(q, effects, Ok(()))
  }

  /** The release attempts on subpartitions `0 .. n-1`, in index order. */
  function ReleaseAttempts(n: nat): (r: seq<Effect>)
    ensures |r| == n && forall i :: 0 <= i < n ==> r[i] == ReleaseSubpartition(i)
  {
    seq(n, (i: nat) => ReleaseSubpartition(i))
  }

  /**
    `release`: only the first call acts. It records a non-null cause and attempts to release
    every subpartition; a failing subpartition release is logged and the loop goes on.
   */
  function Release(p: Partition, cause: Option<Cause>): (s: Step<()>)
    ensures s.result.Ok?
    ensures p.isReleased ==> s.partition == p && s.effects == []
    ensures !p.isReleased ==> s.partition.isReleased
    ensures !p.isReleased ==> s.partition.cause == (if cause.Some? then cause else p.cause)
    ensures !p.isReleased ==> s.effects == ReleaseAttempts(NumberOfSubpartitions(p))
    ensures !p.isReleased ==> NumberOfSubpartitions(s.partition) == NumberOfSubpartitions(p)
    ensures !p.isReleased ==> forall i :: 0 <= i < NumberOfSubpartitions(p) ==>
      s.partition.subpartitions[i].released && s.partition.subpartitions[i].queue == []
    ensures !p.isReleased ==> s.partition.(subpartitions := p.subpartitions, isReleased := false, cause := p.cause) == p
  {
    if p.isReleased then Step(p, [], Ok(()))
    else
      var released := seq(|p.subpartitions|, i requires 0 <= i < |p.subpartitions| =>
        Subpartitions.Release(p.subpartitions[i]));
      var cause' := if cause.Some? then cause else p.cause;
      Step(p.(isReleased := true, cause := cause', subpartitions := released),
           ReleaseAttempts(|p.subpartitions|), Ok(()))
  }

  /**
    `createSubpartitionView`: only a pinned partition hands out views, and only for an existing
    subpartition; the result is the subpartition asked to create its read view.
   */
  function CreateSubpartitionView(p: Partition, index: int): (r: Result<nat>)
    ensures r.Ok? <==> p.pendingReferences > 0 && 0 <= index < NumberOfSubpartitions(p)
    ensures r.Ok? ==> r.value == index
    ensures p.pendingReferences == -1 ==> r == Err(IllegalState("Partition released."))
    ensures p.pendingReferences != -1 && p.pendingReferences <= 0 ==>
      r == Err(IllegalState("Partition not pinned."))
    ensures p.pendingReferences > 0 && !(0 <= index < NumberOfSubpartitions(p)) ==>
      r == Err(IndexOutOfBounds("Subpartition not found."))
  {
    if p.pendingReferences == -1 then Err(IllegalState("Partition released."))
    else if p.pendingReferences <= 0 then Err(IllegalState("Partition not pinned."))
    else if index < 0 || index >= |p.subpartitions| then Err(IndexOutOfBounds("Subpartition not found."))
    else Ok(index)
  }

  /**
    `onConsumedSubpartition`: ignored once released; otherwise one pin reference is consumed,
    the manager hears about the partition exactly when the count reaches zero, and going
    below zero is an invariant violation (the decrement has already happened).
   */
  function OnConsumedSubpartition(p: Partition, index: int): (s: Step<()>)
    ensures p.isReleased ==> s.partition == p && s.effects == [] && s.result.Ok?
    ensures !p.isReleased ==> s.partition == p.(pendingReferences := p.pendingReferences - 1)
    ensures !p.isReleased ==>
      (s.effects == [NotifyManagerConsumed] <==> p.pendingReferences == 1)
    ensures !p.isReleased && p.pendingReferences != 1 ==> s.effects == []
    ensures !p.isReleased ==>
      (s.result.Err? <==> p.pendingReferences < 1)
    ensures s.result.Err? ==> s.result.error == IllegalState("All references released.")
  {
    if p.isReleased then Step(p, [], Ok(()))
    else
      var refCnt := p.pendingReferences - 1;
      var q := p.(pendingReferences := refCnt);
      if refCnt == 0 then Step(q, [NotifyManagerConsumed], Ok(()))
      else if refCnt < 0 then Step(q, [], Err(IllegalState("All references released.")))
      else Step(q, [], Ok(()))
  }

  /** Sum of a sequence of released-buffer counts. */
  function Sum(s: seq<nat>): nat {
    if s == [] then 0 else Sum(s[..|s| - 1]) + s[|s| - 1]
  }

  /**
    `releaseMemory`, the pool owner's callback: asks the subpartitions in index order to
    release memory, where `freed[i]` is what subpartition `i` reports, and stops as soon as
    the freed total covers the request. The result is how many subpartitions were asked.
   */
  method ReleaseMemory(p: Partition, toRelease: int, freed: seq<nat>) returns (r: Result<nat>)
    requires |freed| == NumberOfSubpartitions(p)
    ensures r.Ok? <==> toRelease > 0
    ensures r.Err? ==> r.error == IllegalArgument("")
    ensures r.Ok? ==> r.value <= |freed| && (|freed| > 0 ==> r.value > 0)
    ensures r.Ok? ==> forall j :: 0 < j < r.value ==> Sum(freed[..j]) < toRelease
    ensures r.Ok? ==> r.value == |freed| || Sum(freed[..r.value]) >= toRelease
  {
    if toRelease <= 0 {
      return Err(IllegalArgument(""));
    }
    var remaining := toRelease;
    var asked := 0;
    while asked < |freed|
      invariant 0 <= asked <= |freed|
      invariant remaining == toRelease - Sum(freed[..asked])
      invariant forall j :: 0 < j <= asked ==> Sum(freed[..j]) < toRelease
    {
      assert freed[..asked + 1][..asked] == freed[..asked];
      remaining := remaining - freed[asked];
      asked := asked + 1;
      if remaining <= 0 {
        return Ok(asked);
      }
    }
    return Ok(asked);
  }
}
