/**
  Lifetime properties of the result partition: what holds over any sequence of calls
  made on it by its producer, its consumers, its views and its owner.

  Besides the constructor's pin, a run may pin the partition again: each pin asks for one
  more consumption of every subpartition before the manager hears that it was consumed.
 */
module PartitionLifecycle {
  import opened Outcomes
  import opened Buffers
  import opened ResultPartitions

  datatype Op =
    | AddOp(buffer: Buffer, index: int, accepted: bool)
    | AddIfCapacityOp(buffer: Buffer, index: int, accepted: bool)
    | FinishOp
    | ReleaseOp(cause: Option<Cause>)
    | ConsumedOp(index: int)
    | RegisterPoolOp(requiredSegments: int)
    | PinOp

  /** 1 while the one-shot consumable notification can still fire. */
  function Latch(p: Partition): nat {
    if ConsumersPending(p) then 1 else 0
  }

  /** 1 while the manager can still be told that every subpartition was consumed. */
  function Pinned(p: Partition): nat {
    if p.pendingReferences > 0 then 1 else 0
  }

  /**
    One call on the partition. A failing call leaves the partition as the transition
    returned it; the exception goes to the caller and the run goes on.
   */
  function Apply(p: Partition, op: Op): (r: (Partition, seq<Effect>))
    ensures NumberOfSubpartitions(r.0) == NumberOfSubpartitions(p)
    ensures r.0.kind == p.kind
    ensures r.0.sendScheduleOrUpdateConsumersMessage == p.sendScheduleOrUpdateConsumersMessage
    ensures p.isFinished ==> r.0.isFinished
    ensures p.isReleased ==> r.0.isReleased && r.0.cause == p.cause
    ensures Count(r.1, NotifyPartitionConsumable) + Latch(r.0) <= Latch(p)
    ensures Count(r.1, NotifyManagerConsumed) + Pinned(r.0) <= Pinned(p) + (if op.PinOp? then 1 else 0)
    ensures !op.PinOp? && !op.ConsumedOp? ==> r.0.pendingReferences == p.pendingReferences
  {
    match op
    case AddOp(b, i, accepted) =>
      var s := Add(p, b, i, accepted);
      (s.partition, s.effects)
    case AddIfCapacityOp(b, i, accepted) =>
      var s := AddBufferIfCapacityAvailable(p, b, i, accepted);
      (s.partition, s.effects)
    case FinishOp =>
      var s := Finish(p);
      (s.partition, s.effects)
    case ReleaseOp(cause) =>
      var s := Release(p, cause);
      assert NotifyPartitionConsumable !in s.effects && NotifyManagerConsumed !in s.effects;
      (s.partition, s.effects)
    case ConsumedOp(i) =>
      var s := OnConsumedSubpartition(p, i);
      (s.partition, s.effects)
    case RegisterPoolOp(n) =>
      (match RegisterBufferPool(p, n)
       case Ok(q) => (q, [])
       case Err(_) => (p, []))
    case PinOp =>
      (match Pin(p)
       case Ok(q) => (q, [])
       case Err(_) => (p, []))
  }

  /** How many of `ops` pin the partition. */
  function Pins(ops: seq<Op>): nat
    decreases |ops|
  {
    if ops == [] then 0 else Pins(ops[..|ops| - 1]) + if ops[|ops| - 1].PinOp? then 1 else 0
  }

  datatype Trace = Trace(partition: Partition, effects: seq<Effect>)

  /** The partition after `ops` and every effect emitted on the way, in order. */
  function Run(p: Partition, ops: seq<Op>): Trace
    decreases |ops|
  {
    if ops == [] then Trace(p, [])
    else
      var t := Run(p, ops[..|ops| - 1]);
      var (q, effects) := Apply(t.partition, ops[|ops| - 1]);
      Trace(q, t.effects + effects)
  }

  /** Release attempt `i` appears once among the attempts on `n` subpartitions iff `i < n`. */
  lemma {:induction false} CountReleaseAttempts(n: nat, i: nat)
    ensures Count(ReleaseAttempts(n), ReleaseSubpartition(i)) == if i < n then 1 else 0
    decreases n
  {
    if n > 0 {
      assert ReleaseAttempts(n)[..n - 1] == ReleaseAttempts(n - 1);
      CountReleaseAttempts(n - 1, i);
    }
  }

  /** One call makes the subpartition release attempts exactly when it releases the partition. */
  lemma ApplyReleaseAttempts(p: Partition, op: Op, i: nat)
    ensures Count(Apply(p, op).1, ReleaseSubpartition(i)) ==
      if Apply(p, op).0.isReleased && !p.isReleased && i < NumberOfSubpartitions(p) then 1 else 0
  {
    var (q, effects) := Apply(p, op);
    if op.ReleaseOp? && !p.isReleased {
      CountReleaseAttempts(NumberOfSubpartitions(p), i);
    } else {
      assert ReleaseSubpartition(i) !in effects;
    }
  }

  /**
    The consumable notification fires at most once per partition lifetime, and never for a
    partition whose latch is already spent, that does not send the message, or that is BLOCKING.
   */
  lemma {:induction false} ConsumableNotifiedAtMostOnce(p: Partition, ops: seq<Op>)
    ensures Count(Run(p, ops).effects, NotifyPartitionConsumable) + Latch(Run(p, ops).partition) <= Latch(p)
    ensures Count(Run(p, ops).effects, NotifyPartitionConsumable) <= 1
    ensures p.kind == Blocking ==> NotifyPartitionConsumable !in Run(p, ops).effects
    decreases |ops|
  {
    if ops != [] {
      var t := Run(p, ops[..|ops| - 1]);
      ConsumableNotifiedAtMostOnce(p, ops[..|ops| - 1]);
      CountAppend(t.effects, Apply(t.partition, ops[|ops| - 1]).1, NotifyPartitionConsumable);
    }
  }

  /**
    The manager hears that the partition was consumed at most once per pin: once for a run
    without a new pin, and never for a run that starts unpinned and does not pin.
   */
  lemma {:induction false} ManagerNotifiedAtMostOnce(p: Partition, ops: seq<Op>)
    ensures Count(Run(p, ops).effects, NotifyManagerConsumed) + Pinned(Run(p, ops).partition) <= Pinned(p) + Pins(ops)
    ensures Pins(ops) == 0 ==> Count(Run(p, ops).effects, NotifyManagerConsumed) <= 1
    ensures p.pendingReferences <= 0 && Pins(ops) == 0 ==> NotifyManagerConsumed !in Run(p, ops).effects
    decreases |ops|
  {
    if ops != [] {
      var t := Run(p, ops[..|ops| - 1]);
      ManagerNotifiedAtMostOnce(p, ops[..|ops| - 1]);
      CountAppend(t.effects, Apply(t.partition, ops[|ops| - 1]).1, NotifyManagerConsumed);
    }
  }

  /** Once finished, always finished. */
  lemma {:induction false} FinishIsFinal(p: Partition, ops: seq<Op>)
    requires p.isFinished
    ensures Run(p, ops).partition.isFinished
    decreases |ops|
  {
    if ops != [] {
      FinishIsFinal(p, ops[..|ops| - 1]);
    }
  }

  /** After a successful `finish`, whatever happens next, no append and no second finish succeeds. */
  lemma NoProduceAfterFinish(p: Partition, ops: seq<Op>, buffer: Buffer, index: int, accepted: bool)
    requires Finish(p).result.Ok?
    ensures Add(Run(Finish(p).partition, ops).partition, buffer, index, accepted).result.Err?
    ensures AddBufferIfCapacityAvailable(Run(Finish(p).partition, ops).partition, buffer, index, accepted).result.Err?
    ensures Finish(Run(Finish(p).partition, ops).partition).result.Err?
  {
    FinishIsFinal(Finish(p).partition, ops);
  }

  /**
    Release is set-once: whatever the calls, every subpartition gets exactly one release
    attempt if the run released the partition and none otherwise, and once released the
    partition keeps the failure cause of that first release.
   */
  lemma {:induction false} ReleaseAttemptedOncePerSubpartition(p: Partition, ops: seq<Op>, i: nat)
    ensures NumberOfSubpartitions(Run(p, ops).partition) == NumberOfSubpartitions(p)
    ensures p.isReleased ==> Run(p, ops).partition.isReleased && Run(p, ops).partition.cause == p.cause
    ensures Count(Run(p, ops).effects, ReleaseSubpartition(i)) ==
      if Run(p, ops).partition.isReleased && !p.isReleased && i < NumberOfSubpartitions(p) then 1 else 0
    decreases |ops|
  {
    if ops != [] {
      var t := Run(p, ops[..|ops| - 1]);
      ReleaseAttemptedOncePerSubpartition(p, ops[..|ops| - 1], i);
      ApplyReleaseAttempts(t.partition, ops[|ops| - 1], i);
      CountAppend(t.effects, Apply(t.partition, ops[|ops| - 1]).1, ReleaseSubpartition(i));
    }
  }

  /** `j` consumption notices on an unreleased partition lower its pin count by `j`; the manager hears of it iff that reaches zero. */
  lemma {:induction false} ConsumeNotices(p: Partition, ops: seq<Op>)
    requires !p.isReleased && p.pendingReferences >= |ops|
    requires forall j :: 0 <= j < |ops| ==> ops[j].ConsumedOp?
    ensures Run(p, ops).partition.pendingReferences == p.pendingReferences - |ops|
    ensures !Run(p, ops).partition.isReleased
    ensures Count(Run(p, ops).effects, NotifyManagerConsumed) ==
      if |ops| > 0 && p.pendingReferences == |ops| then 1 else 0
    decreases |ops|
  {
    if ops != [] {
      var init := ops[..|ops| - 1];
      ConsumeNotices(p, init);
      var t := Run(p, init);
      CountAppend(t.effects, Apply(t.partition, ops[|ops| - 1]).1, NotifyManagerConsumed);
    }
  }

  /**
    A freshly created partition with `n > 0` subpartitions, each consumed once, ends with a
    zero pin count and has told its manager exactly once.
   */
  lemma EverySubpartitionConsumedOnce(
    kind: Kind, n: int, hasBackPressure: bool, send: bool, boundedLength: int, ops: seq<Op>)
    requires n > 0 && |ops| == n
    requires forall j :: 0 <= j < |ops| ==> ops[j].ConsumedOp?
    ensures Create(kind, n, hasBackPressure, send, boundedLength).Ok?
    ensures Run(Create(kind, n, hasBackPressure, send, boundedLength).value, ops).partition.pendingReferences == 0
    ensures Count(Run(Create(kind, n, hasBackPressure, send, boundedLength).value, ops).effects, NotifyManagerConsumed) == 1
  {
    ConsumeNotices(Create(kind, n, hasBackPressure, send, boundedLength).value, ops);
  }

  /** Running `a` and then `b` is running `a + b`. */
  lemma {:induction false} RunAppend(p: Partition, a: seq<Op>, b: seq<Op>)
    ensures Run(p, a + b).partition == Run(Run(p, a).partition, b).partition
    ensures Run(p, a + b).effects == Run(p, a).effects + Run(Run(p, a).partition, b).effects
    decreases |b|
  {
    if b == [] {
      assert a + b == a;
    } else {
      var b' := b[..|b| - 1];
      assert (a + b)[..|a + b| - 1] == a + b';
      assert (a + b)[|a + b| - 1] == b[|b| - 1];
      RunAppend(p, a, b');
      var t := Run(Run(p, a).partition, b');
      AppendAssociative(Run(p, a).effects, t.effects, Apply(t.partition, b[|b| - 1]).1);
    }
  }

  /**
    The pin's reference count round trip: an unpinned partition hands out no view; a pin
    makes every subpartition's view available; one consumption notice per subpartition
    brings the count back to where it was, tells the manager exactly once, and view
    creation fails again with "Partition not pinned.".
   */
  lemma PinThenConsumeAll(p: Partition, ops: seq<Op>, index: int)
    requires !p.isReleased && p.pendingReferences == 0
    requires |ops| == NumberOfSubpartitions(p) > 0
    requires forall j :: 0 <= j < |ops| ==> ops[j].ConsumedOp?
    requires 0 <= index < NumberOfSubpartitions(p)
    ensures CreateSubpartitionView(p, index) == Err(IllegalState("Partition not pinned."))
    ensures CreateSubpartitionView(Run(p, [PinOp]).partition, index) == Ok(index)
    ensures Run(p, [PinOp] + ops).partition.pendingReferences == 0
    ensures Count(Run(p, [PinOp] + ops).effects, NotifyManagerConsumed) == 1
    ensures CreateSubpartitionView(Run(p, [PinOp] + ops).partition, index) == Err(IllegalState("Partition not pinned."))
  {
    var pinned := Run(p, [PinOp]).partition;
    SinglePin(p);
    RunAppend(p, [PinOp], ops);
    ConsumeNotices(pinned, ops);
    var last := Run(p, [PinOp] + ops).partition;
    assert last.pendingReferences == 0 && !last.isReleased;
  }

  /** A run of one pin is the pin. */
  lemma SinglePin(p: Partition)
    requires p.pendingReferences >= 0
    ensures Run(p, [PinOp]) == Trace(Pin(p).value, [])
  {
    assert [PinOp][..0] == [];
  }
}
