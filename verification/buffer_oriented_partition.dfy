/**
  Routing of serialized records into buffer builders, as the buffer-oriented result
  partition does it.

  A builder is a bounded byte sequence obtained from the pool; a subpartition holds the
  sequence of consumers registered with it: consumers of builders (`Data`) and event
  buffers (`Event`). In unicast mode each subpartition has its own open builder; in
  broadcast mode one open builder is registered with every subpartition. What a consumer
  of subpartition `t` reads is `Stream(r, t)`: the bytes of its builders and its events,
  in registration order.

  Obtaining a builder from the pool (blocking or not) is one step that returns a new,
  empty builder of one memory segment.
 */
module BufferOrientedPartitions {
  import opened Outcomes
  import opened Buffers

  /** Identity of a serialized task event. */
  type EventId = nat

  datatype BufferBuilder = BufferBuilder(capacity: nat, data: seq<byte>)

  predicate IsFull(b: BufferBuilder) {
    |b.data| >= b.capacity
  }

  datatype Entry = Data(builder: nat) | Event(event: EventId, isPriority: bool)

  /** What a consumer reads: data bytes and events. */
  datatype Item = Byte(value: byte) | EventItem(event: EventId)

  datatype Router = Router(
    segmentSize: nat,
    isFinished: bool,
    builders: seq<BufferBuilder>,
    current: seq<Option<nat>>,
    broadcast: Option<nat>,
    subpartitions: seq<seq<Entry>>)

  // ---------------------------------------------------------------------------
  // What consumers observe

  function Bytes(s: seq<byte>): (r: seq<Item>)
    ensures |r| == |s| && forall i :: 0 <= i < |s| ==> r[i] == Byte(s[i])
  {
    seq(|s|, i requires 0 <= i < |s| => Byte(s[i]))
  }

  lemma BytesConcat(a: seq<byte>, b: seq<byte>)
    ensures Bytes(a + b) == Bytes(a) + Bytes(b)
  {
  }

  /** Every builder referenced from `q` exists among `n` builders. */
  predicate RefsIn(q: seq<Entry>, n: nat) {
    forall k :: 0 <= k < |q| && q[k].Data? ==> q[k].builder < n
  }

  /** What one consumer yields; the invariant rules out a reference to a missing builder. */
  function Items(builders: seq<BufferBuilder>, e: Entry): seq<Item> {
    match e
    case Data(id) => if id < |builders| then Bytes(builders[id].data) else []
    case Event(ev, _) => [EventItem(ev)]
  }

  function Flatten(builders: seq<BufferBuilder>, q: seq<Entry>): seq<Item>
    decreases |q|
  {
    if q == [] then []
    else Flatten(builders, q[..|q| - 1]) + Items(builders, q[|q| - 1])
  }

  /** Builder `id` is the last consumer of `q` and appears nowhere before it. */
  predicate OpenIn(q: seq<Entry>, id: nat) {
    |q| > 0 && q[|q| - 1] == Data(id) && Data(id) !in q[..|q| - 1]
  }

  // ---------------------------------------------------------------------------
  // The routing invariant

  /** Unicast builder `id` of subpartition `t` is open, not full and registered with `t` only. */
  predicate UnicastOpen(r: Router, t: nat, id: nat)
    requires t < |r.subpartitions|
  {
    && id < |r.builders|
    && !IsFull(r.builders[id])
    && OpenIn(r.subpartitions[t], id)
    && forall j :: 0 <= j < |r.subpartitions| && j != t ==> Data(id) !in r.subpartitions[j]
  }

  /** The broadcast builder is open, not full and the last consumer of every subpartition. */
  predicate BroadcastOpen(r: Router, id: nat) {
    && id < |r.builders|
    && !IsFull(r.builders[id])
    && (forall t :: 0 <= t < |r.current| ==> r.current[t].None?)
    && forall j :: 0 <= j < |r.subpartitions| ==> OpenIn(r.subpartitions[j], id)
  }

  predicate Inv(r: Router) {
    && r.segmentSize > 0
    && |r.current| == |r.subpartitions|
    && (forall t :: 0 <= t < |r.subpartitions| ==> RefsIn(r.subpartitions[t], |r.builders|))
    && (forall t :: 0 <= t < |r.current| && r.current[t].Some? ==> UnicastOpen(r, t, r.current[t].value))
    && (r.broadcast.Some? ==> BroadcastOpen(r, r.broadcast.value))
  }

  /** The unicast and broadcast modes exclude each other. */
  lemma ModesExclusive(r: Router)
    requires Inv(r) && r.broadcast.Some?
    ensures forall t :: 0 <= t < |r.current| ==> r.current[t].None?
  {
  }

  function Stream(r: Router, t: nat): seq<Item>
    requires t < |r.subpartitions|
  {
    Flatten(r.builders, r.subpartitions[t])
  }

  // ---------------------------------------------------------------------------
  // Framing lemmas for `Flatten`

  lemma {:induction false} FlattenFrame(b1: seq<BufferBuilder>, b2: seq<BufferBuilder>, q: seq<Entry>)
    requires RefsIn(q, |b1|) && |b1| <= |b2|
    requires forall k :: 0 <= k < |q| && q[k].Data? ==> b2[q[k].builder] == b1[q[k].builder]
    ensures RefsIn(q, |b2|)
    ensures Flatten(b2, q) == Flatten(b1, q)
    decreases |q|
  {
    if q != [] {
      FlattenFrame(b1, b2, q[..|q| - 1]);
    }
  }

  lemma FlattenAppend(b: seq<BufferBuilder>, q: seq<Entry>, e: Entry)
    requires RefsIn(q, |b|) && (e.Data? ==> e.builder < |b|)
    ensures RefsIn(q + [e], |b|)
    ensures Flatten(b, q + [e]) == Flatten(b, q) + Items(b, e)
  {
    assert (q + [e])[..|q|] == q;
  }

  /** Adding bytes to a builder `q` does not reference leaves what `q` reads unchanged. */
  lemma FlattenOtherBuilder(b: seq<BufferBuilder>, q: seq<Entry>, id: nat, more: seq<byte>)
    requires RefsIn(q, |b|) && id < |b| && Data(id) !in q
    ensures Flatten(b[id := b[id].(data := b[id].data + more)], q) == Flatten(b, q)
  {
    var b2 := b[id := b[id].(data := b[id].data + more)];
    forall k | 0 <= k < |q| && q[k].Data?
      ensures b2[q[k].builder] == b[q[k].builder]
    {
      assert q[k] != Data(id);
    }
    FlattenFrame(b, b2, q);
  }

  /** Adding bytes to the open builder of `q` appends exactly those bytes to what `q` reads. */
  lemma FlattenOpenBuilder(b: seq<BufferBuilder>, q: seq<Entry>, id: nat, more: seq<byte>)
    requires RefsIn(q, |b|) && OpenIn(q, id)
    ensures Flatten(b[id := b[id].(data := b[id].data + more)], q) == Flatten(b, q) + Bytes(more)
  {
    var b2 := b[id := b[id].(data := b[id].data + more)];
    var front := q[..|q| - 1];
    FlattenOtherBuilder(b, front, id, more);
    BytesConcat(b[id].data, more);
  }

  /** A new builder leaves what every existing consumer reads unchanged. */
  lemma FlattenNewBuilder(b: seq<BufferBuilder>, q: seq<Entry>, x: BufferBuilder)
    requires RefsIn(q, |b|)
    ensures RefsIn(q, |b + [x]|)
    ensures Flatten(b + [x], q) == Flatten(b, q)
  {
    FlattenFrame(b, b + [x], q);
  }

  // ---------------------------------------------------------------------------
  // Operations

  /** A partition with `n` subpartitions and no builders yet. */
  function Create(n: nat, segmentSize: nat): (r: Router)
    requires segmentSize > 0
    ensures Inv(r) && |r.subpartitions| == n && !r.isFinished
    ensures forall t :: 0 <= t < n ==> Stream(r, t) == []
  {
    Router(segmentSize, false, [], seq(n, _ => None), None, seq(n, _ => []))
  }

  function Remaining(b: BufferBuilder): nat {
    if |b.data| >= b.capacity then 0 else b.capacity - |b.data|
  }

  /** A router together with the builder it just handed out. */
  datatype Opened = Opened(router: Router, id: nat)

  /**
    `getNewBufferBuilderForSinglePartitionEmit`: in produce state only, leaves broadcast mode
    and registers a blank builder with subpartition `t` and with no other subpartition.
   */
  function NewUnicastBuilder(r: Router, t: nat): (result: Result<Opened>)
    requires Inv(r) && t < |r.subpartitions|
    ensures result.Ok? <==> !r.isFinished
    ensures result.Ok? ==> Inv(result.value.router) && Unchanged(r, result.value.router)
    ensures result.Ok? ==> result.value.router.current[t] == Some(result.value.id)
    ensures result.Ok? ==> result.value.router.broadcast == None
    ensures result.Ok? ==> result.value.router.builders[result.value.id] == BufferBuilder(r.segmentSize, [])
    ensures result.Ok? ==>
      result.value.router.subpartitions[t] == r.subpartitions[t] + [Data(result.value.id)]
    ensures result.Ok? ==> forall j :: 0 <= j < |r.subpartitions| && j != t ==>
      result.value.router.subpartitions[j] == r.subpartitions[j]
    ensures result.Ok? ==> forall j :: 0 <= j < |r.subpartitions| ==>
      Stream(result.value.router, j) == Stream(r, j)
  {
    if r.isFinished then Err(IllegalState("Partition already finished."))
    else
      var id := |r.builders|;
      var blank := BufferBuilder(r.segmentSize, []);
      var r' := Router(
        r.segmentSize, r.isFinished, r.builders + [blank],
        r.current[t := Some(id)], None,
        r.subpartitions[t := r.subpartitions[t] + [Data(id)]]);
      NewBuilderKeepsStreams(r, r', blank);
      Ok(Opened(r', id))
  }

  /** Configuration and sizes a routing step never changes. */
  predicate Unchanged(r: Router, r': Router) {
    && r'.segmentSize == r.segmentSize
    && r'.isFinished == r.isFinished
    && |r'.subpartitions| == |r.subpartitions|
    && |r'.builders| >= |r.builders|
  }

  lemma NewBuilderKeepsStreams(r: Router, r': Router, blank: BufferBuilder)
    requires Inv(r)
    requires r'.builders == r.builders + [blank] && |r'.subpartitions| == |r.subpartitions|
    requires forall j :: 0 <= j < |r.subpartitions| ==>
      r'.subpartitions[j] == r.subpartitions[j] || r'.subpartitions[j] == r.subpartitions[j] + [Data(|r.builders|)]
    requires blank.data == []
    ensures forall j :: 0 <= j < |r.subpartitions| ==> RefsIn(r'.subpartitions[j], |r'.builders|)
    ensures forall j :: 0 <= j < |r.subpartitions| ==>
      Flatten(r'.builders, r'.subpartitions[j]) == Flatten(r.builders, r.subpartitions[j])
  {
    forall j | 0 <= j < |r.subpartitions|
      ensures RefsIn(r'.subpartitions[j], |r'.builders|)
      ensures Flatten(r'.builders, r'.subpartitions[j]) == Flatten(r.builders, r.subpartitions[j])
    {
      FlattenNewBuilder(r.builders, r.subpartitions[j], blank);
      if r'.subpartitions[j] != r.subpartitions[j] {
        FlattenAppend(r'.builders, r.subpartitions[j], Data(|r.builders|));
      }
    }
  }

  /**
    `getNewBufferBuilderForBroadcast`: in produce state only, closes every unicast builder and
    registers one fresh builder, as a copy of its consumer, with every subpartition.
   */
  function NewBroadcastBuilder(r: Router): (result: Result<Opened>)
    requires Inv(r)
    ensures result.Ok? <==> !r.isFinished
    ensures result.Ok? ==> Inv(result.value.router) && Unchanged(r, result.value.router)
    ensures result.Ok? ==> result.value.router.broadcast == Some(result.value.id)
    ensures result.Ok? ==> forall t :: 0 <= t < |r.current| ==> result.value.router.current[t].None?
    ensures result.Ok? ==> result.value.router.builders[result.value.id] == BufferBuilder(r.segmentSize, [])
    ensures result.Ok? ==> forall j :: 0 <= j < |r.subpartitions| ==>
      result.value.router.subpartitions[j] == r.subpartitions[j] + [Data(result.value.id)]
    ensures result.Ok? ==> forall j :: 0 <= j < |r.subpartitions| ==>
      Stream(result.value.router, j) == Stream(r, j)
  {
    if r.isFinished then Err(IllegalState("Partition already finished."))
    else
      var id := |r.builders|;
      var blank := BufferBuilder(r.segmentSize, []);
      var r' := Router(
        r.segmentSize, r.isFinished, r.builders + [blank],
        seq(|r.current|, _ => None), Some(id),
        seq(|r.subpartitions|, j requires 0 <= j < |r.subpartitions| => r.subpartitions[j] + [Data(id)]));
      NewBuilderKeepsStreams(r, r', blank);
      assert forall j :: 0 <= j < |r.subpartitions| ==> Data(id) !in r.subpartitions[j] by {
        forall j | 0 <= j < |r.subpartitions| ensures Data(id) !in r.subpartitions[j] {
          assert RefsIn(r.subpartitions[j], id);
        }
      }
      assert forall j :: 0 <= j < |r.subpartitions| ==> r'.subpartitions[j][..|r'.subpartitions[j]| - 1] == r.subpartitions[j];
      Ok(Opened(r', id))
  }

  /** Builder `id` after `more` has been committed to it. */
  function Appended(r: Router, id: nat, more: seq<byte>): Router
    requires id < |r.builders|
  {
    r.(builders := r.builders[id := r.builders[id].(data := r.builders[id].data + more)])
  }

  /** `finishPartitionBuffer(t)` when the unicast builder of `t` has become full. */
  function CloseUnicastIfFull(r: Router, t: nat, id: nat): Router
    requires id < |r.builders| && t < |r.current|
  {
    if IsFull(r.builders[id]) then r.(current := r.current[t := None]) else r
  }

  /** `finishBroadcastBuffer` when the broadcast builder has become full. */
  function CloseBroadcastIfFull(r: Router, id: nat): Router
    requires id < |r.builders|
  {
    if IsFull(r.builders[id]) then r.(broadcast := None) else r
  }

  /** Writing into the open unicast builder of `t` reaches the consumer of `t` and nobody else. */
  lemma UnicastAppend(r: Router, t: nat, id: nat, more: seq<byte>)
    requires Inv(r) && t < |r.subpartitions| && r.current[t] == Some(id)
    requires |more| <= Remaining(r.builders[id])
    ensures Inv(CloseUnicastIfFull(Appended(r, id, more), t, id))
    ensures Stream(CloseUnicastIfFull(Appended(r, id, more), t, id), t) == Stream(r, t) + Bytes(more)
    ensures forall j :: 0 <= j < |r.subpartitions| && j != t ==>
      Stream(CloseUnicastIfFull(Appended(r, id, more), t, id), j) == Stream(r, j)
  {
    var r2 := Appended(r, id, more);
    var r3 := CloseUnicastIfFull(r2, t, id);
    assert r.broadcast == None;
    forall t' | 0 <= t' < |r3.current| && r3.current[t'].Some?
      ensures UnicastOpen(r3, t', r3.current[t'].value)
    {
      if t' != t {
        var id' := r.current[t'].value;
        assert UnicastOpen(r, t', id');
        assert id' != id by {
          assert Data(id) !in r.subpartitions[t'];
          assert r.subpartitions[t'][|r.subpartitions[t']| - 1] == Data(id');
        }
      }
    }
    FlattenOpenBuilder(r.builders, r.subpartitions[t], id, more);
    forall j | 0 <= j < |r.subpartitions| && j != t
      ensures Stream(r3, j) == Stream(r, j)
    {
      FlattenOtherBuilder(r.builders, r.subpartitions[j], id, more);
    }
  }

  /** Writing into the open broadcast builder reaches every consumer alike. */
  lemma BroadcastAppend(r: Router, id: nat, more: seq<byte>)
    requires Inv(r) && r.broadcast == Some(id)
    requires |more| <= Remaining(r.builders[id])
    ensures Inv(CloseBroadcastIfFull(Appended(r, id, more), id))
    ensures forall j :: 0 <= j < |r.subpartitions| ==>
      Stream(CloseBroadcastIfFull(Appended(r, id, more), id), j) == Stream(r, j) + Bytes(more)
  {
    var r3 := CloseBroadcastIfFull(Appended(r, id, more), id);
    forall j | 0 <= j < |r.subpartitions|
      ensures Stream(r3, j) == Stream(r, j) + Bytes(more)
    {
      FlattenOpenBuilder(r.builders, r.subpartitions[j], id, more);
    }
  }

  /** One pass of a write loop: the router afterwards and how many bytes it committed. */
  datatype Chunk = Chunk(router: Router, written: nat)

  function Min(a: nat, b: nat): nat {
    if a <= b then a else b
  }

  /** Room left in the open unicast builder of `t`, 0 if there is none. */
  function UnicastRoom(r: Router, t: nat): nat
    requires Inv(r) && t < |r.subpartitions|
  {
    match r.current[t]
    case Some(id) => Remaining(r.builders[id])
    case None => 0
  }

  /** Room left in the open broadcast builder, 0 if there is none. */
  function BroadcastRoom(r: Router): nat
    requires Inv(r)
  {
    match r.broadcast
    case Some(id) => Remaining(r.builders[id])
    case None => 0
  }

  /** One iteration of the `writeRecord` loop for target `t`. */
  function UnicastChunk(r: Router, t: int, bytes: seq<byte>): (result: Result<Chunk>)
    requires Inv(r)
    ensures !(0 <= t < |r.subpartitions|) ==> result == Err(IndexOutOfBounds(""))
    ensures 0 <= t < |r.subpartitions| ==> (result.Ok? <==> !r.isFinished || r.current[t].Some?)
    ensures result.Ok? ==> 0 <= t < |r.subpartitions|
    ensures result.Ok? ==> Inv(result.value.router) && Unchanged(r, result.value.router)
    ensures result.Ok? ==> result.value.written <= |bytes| && (|bytes| > 0 ==> result.value.written > 0)
    ensures result.Ok? ==> result.value.router.broadcast == None
    ensures result.Ok? ==>
      Stream(result.value.router, t) == Stream(r, t) + Bytes(bytes[..result.value.written])
    ensures result.Ok? ==> forall j :: 0 <= j < |r.subpartitions| && j != t ==>
      result.value.router.subpartitions[j] == r.subpartitions[j] && Stream(result.value.router, j) == Stream(r, j)
    ensures result.Ok? && result.value.written < |bytes| ==> result.value.router.current[t].None?
    ensures result.Ok? && r.current[t].Some? ==>
      && result.value.written == Min(|bytes|, UnicastRoom(r, t))
      && result.value.router.subpartitions == r.subpartitions
      && |result.value.router.builders| == |r.builders|
  {
    if t < 0 || t >= |r.subpartitions| then Err(IndexOutOfBounds(""))
    else
      var held: Result<Opened> := if r.current[t].Some? then Ok(Opened(r, r.current[t].value)) else NewUnicastBuilder(r, t);
      match held
      case Err(e) => Err(e)
      case Ok(Opened(r1, id)) =>
        var k := Min(|bytes|, Remaining(r1.builders[id]));
        var r3 := CloseUnicastIfFull(Appended(r1, id, bytes[..k]), t, id);
        UnicastAppend(r1, t, id, bytes[..k]);
        Ok(Chunk(r3, k))
  }

  /** The outcome of a whole write: the router, how many bytes were committed, and the result. */
  datatype Written = Written(router: Router, written: nat, result: Result<()>)

  /** Two successive commits to every stream add up to one commit of their concatenation. */
  lemma StreamsExtend(r: Router, cur: Router, next: Router, bytes: seq<byte>, written: nat, k: nat)
    requires |cur.subpartitions| == |r.subpartitions| == |next.subpartitions|
    requires written + k <= |bytes|
    requires forall j :: 0 <= j < |r.subpartitions| ==> Stream(cur, j) == Stream(r, j) + Bytes(bytes[..written])
    requires forall j :: 0 <= j < |r.subpartitions| ==>
      Stream(next, j) == Stream(cur, j) + Bytes(bytes[written..][..k])
    ensures forall j :: 0 <= j < |r.subpartitions| ==> Stream(next, j) == Stream(r, j) + Bytes(bytes[..written + k])
  {
    BytesSplit(bytes, written, k);
    forall j | 0 <= j < |r.subpartitions|
      ensures Stream(next, j) == Stream(r, j) + Bytes(bytes[..written + k])
    {
      AppendAssociative(Stream(r, j), Bytes(bytes[..written]), Bytes(bytes[written..][..k]));
    }
  }

  lemma BytesSplit(bytes: seq<byte>, k: nat, m: nat)
    requires k <= |bytes| && m <= |bytes| - k
    ensures Bytes(bytes[..k]) + Bytes(bytes[k..][..m]) == Bytes(bytes[..k + m])
  {
    assert bytes[..k] + bytes[k..][..m] == bytes[..k + m];
    BytesConcat(bytes[..k], bytes[k..][..m]);
  }

  /**
    `writeRecord`: commits the record's bytes, in order, to the builders of subpartition `t`,
    closing each builder that fills up and opening a fresh one for the rest. What it commits
    reaches the consumer of `t` and nobody else. It fails exactly when it needs a new builder
    after the partition has finished; the bytes committed before the failure stay committed.
   */
  method WriteRecord(r: Router, bytes: seq<byte>, t: int) returns (w: Written)
    requires Inv(r)
    ensures Inv(w.router) && Unchanged(r, w.router) && w.written <= |bytes|
    ensures !(0 <= t < |r.subpartitions|) ==> w == Written(r, 0, Err(IndexOutOfBounds("")))
    ensures 0 <= t < |r.subpartitions| ==>
      Stream(w.router, t) == Stream(r, t) + Bytes(bytes[..w.written])
    ensures forall j :: 0 <= j < |r.subpartitions| && j != t ==>
      w.router.subpartitions[j] == r.subpartitions[j] && Stream(w.router, j) == Stream(r, j)
    ensures 0 <= t < |r.subpartitions| ==>
      (w.result.Err? <==> r.isFinished && (r.current[t].None? || |bytes| > UnicastRoom(r, t)))
    ensures w.result.Ok? ==> w.written == |bytes| && w.router.broadcast == None
    ensures 0 <= t < |r.subpartitions| && r.current[t].Some? && |bytes| <= UnicastRoom(r, t) ==>
      w.router.subpartitions == r.subpartitions && |w.router.builders| == |r.builders|
  {
    if t < 0 || t >= |r.subpartitions| {
      return Written(r, 0, Err(IndexOutOfBounds("")));
    }
    var cur, written := r, 0;
    while true
      invariant Inv(cur) && Unchanged(r, cur) && written <= |bytes|
      invariant Stream(cur, t) == Stream(r, t) + Bytes(bytes[..written])
      invariant forall j :: 0 <= j < |r.subpartitions| && j != t ==>
        cur.subpartitions[j] == r.subpartitions[j] && Stream(cur, j) == Stream(r, j)
      invariant written == 0 ==> cur == r
      invariant written > 0 ==> written < |bytes| && cur.current[t].None? && cur.broadcast == None
      invariant written > 0 ==> r.current[t].None? || |bytes| > UnicastRoom(r, t)
      invariant written > 0 && r.isFinished ==> r.current[t].Some?
      decreases |bytes| - written
    {
      var step := UnicastChunk(cur, t, bytes[written..]);
      if step.Err? {
        return Written(cur, written, Err(step.error));
      }
      var k := step.value.written;
      BytesSplit(bytes, written, k);
      AppendAssociative(Stream(r, t), Bytes(bytes[..written]), Bytes(bytes[written..][..k]));
      cur, written := step.value.router, written + k;
      if written == |bytes| {
        return Written(cur, written, Ok(()));
      }
    }
  }

  /** One iteration of the `broadcastRecord` loop. */
  function BroadcastChunk(r: Router, bytes: seq<byte>): (result: Result<Chunk>)
    requires Inv(r)
    ensures result.Ok? <==> !r.isFinished || r.broadcast.Some?
    ensures result.Ok? ==> Inv(result.value.router) && Unchanged(r, result.value.router)
    ensures result.Ok? ==> result.value.written <= |bytes| && (|bytes| > 0 ==> result.value.written > 0)
    ensures result.Ok? ==> forall t :: 0 <= t < |r.current| ==> result.value.router.current[t].None?
    ensures result.Ok? ==> forall j :: 0 <= j < |r.subpartitions| ==>
      Stream(result.value.router, j) == Stream(r, j) + Bytes(bytes[..result.value.written])
    ensures result.Ok? && result.value.written < |bytes| ==> result.value.router.broadcast.None?
    ensures result.Ok? && r.broadcast.Some? ==>
      && result.value.written == Min(|bytes|, BroadcastRoom(r))
      && result.value.router.subpartitions == r.subpartitions
      && |result.value.router.builders| == |r.builders|
  {
    var held: Result<Opened> := if r.broadcast.Some? then Ok(Opened(r, r.broadcast.value)) else NewBroadcastBuilder(r);
    match held
    case Err(e) => Err(e)
    case Ok(Opened(r1, id)) =>
      var k := Min(|bytes|, Remaining(r1.builders[id]));
      var r3 := CloseBroadcastIfFull(Appended(r1, id, bytes[..k]), id);
      BroadcastAppend(r1, id, bytes[..k]);
      Ok(Chunk(r3, k))
  }

  /**
    `broadcastRecord`: commits the record's bytes, in order, to builders shared by every
    subpartition, so every consumer reads the same bytes after what it read before. It fails
    exactly when it needs a new builder after the partition has finished; the bytes committed
    before the failure stay committed.
   */
  method BroadcastRecord(r: Router, bytes: seq<byte>) returns (w: Written)
    requires Inv(r)
    ensures Inv(w.router) && Unchanged(r, w.router) && w.written <= |bytes|
    ensures forall j :: 0 <= j < |r.subpartitions| ==>
      Stream(w.router, j) == Stream(r, j) + Bytes(bytes[..w.written])
    ensures w.result.Err? <==> r.isFinished && (r.broadcast.None? || |bytes| > BroadcastRoom(r))
    ensures w.result.Ok? ==> w.written == |bytes|
    ensures w.result.Ok? ==> forall t :: 0 <= t < |r.current| ==> w.router.current[t].None?
    ensures r.broadcast.Some? && |bytes| <= BroadcastRoom(r) ==>
      w.router.subpartitions == r.subpartitions && |w.router.builders| == |r.builders|
  {
    var cur, written := r, 0;
    while true
      invariant BroadcastProgress(r, bytes, cur, written)
      decreases |bytes| - written
    {
      var step := BroadcastChunk(cur, bytes[written..]);
      if step.Err? {
        BroadcastStepFails(r, bytes, cur, written);
        return Written(cur, written, Err(step.error));
      }
      if written + step.value.written == |bytes| {
        BroadcastStepCompletes(r, bytes, cur, written);
        return Written(step.value.router, |bytes|, Ok(()));
      }
      BroadcastStepAdvances(r, bytes, cur, written);
      cur, written := step.value.router, written + step.value.written;
    }
  }

  /** The state of the `broadcastRecord` loop once `written` bytes were committed to `cur`. */
  predicate BroadcastProgress(r: Router, bytes: seq<byte>, cur: Router, written: nat) {
    && Inv(r) && Inv(cur) && Unchanged(r, cur) && written <= |bytes|
    && (forall j :: 0 <= j < |r.subpartitions| ==> Stream(cur, j) == Stream(r, j) + Bytes(bytes[..written]))
    && (written == 0 ==> cur == r)
    && (written > 0 ==>
      && written < |bytes|
      && cur.broadcast.None?
      && (forall t :: 0 <= t < |cur.current| ==> cur.current[t].None?)
      && (r.broadcast.None? || |bytes| > BroadcastRoom(r))
      && (r.isFinished ==> r.broadcast.Some?))
  }

  /** An iteration of the `broadcastRecord` loop fails only when the finished partition must open a builder. */
  lemma BroadcastStepFails(r: Router, bytes: seq<byte>, cur: Router, written: nat)
    requires BroadcastProgress(r, bytes, cur, written)
    requires BroadcastChunk(cur, bytes[written..]).Err?
    ensures r.isFinished && (r.broadcast.None? || |bytes| > BroadcastRoom(r))
  {
  }

  /** An iteration of the `broadcastRecord` loop that leaves bytes over keeps the loop state. */
  lemma BroadcastStepAdvances(r: Router, bytes: seq<byte>, cur: Router, written: nat)
    requires BroadcastProgress(r, bytes, cur, written)
    requires BroadcastChunk(cur, bytes[written..]).Ok?
    requires written + BroadcastChunk(cur, bytes[written..]).value.written < |bytes|
    ensures BroadcastProgress(r, bytes, BroadcastChunk(cur, bytes[written..]).value.router,
      written + BroadcastChunk(cur, bytes[written..]).value.written)
  {
    var c := BroadcastChunk(cur, bytes[written..]).value;
    StreamsExtend(r, cur, c.router, bytes, written, c.written);
    assert c.router.broadcast.None?;
    if written == 0 && r.broadcast.Some? {
      assert c.written == Min(|bytes|, BroadcastRoom(r));
    }
  }

  /** The iteration of the `broadcastRecord` loop that commits the last byte completes the record. */
  lemma BroadcastStepCompletes(r: Router, bytes: seq<byte>, cur: Router, written: nat)
    requires BroadcastProgress(r, bytes, cur, written)
    requires BroadcastChunk(cur, bytes[written..]).Ok?
    requires written + BroadcastChunk(cur, bytes[written..]).value.written == |bytes|
    ensures !(r.isFinished && (r.broadcast.None? || |bytes| > BroadcastRoom(r)))
    ensures forall j :: 0 <= j < |r.subpartitions| ==>
      Stream(BroadcastChunk(cur, bytes[written..]).value.router, j) == Stream(r, j) + Bytes(bytes)
    ensures r.broadcast.Some? && |bytes| <= BroadcastRoom(r) ==>
      BroadcastChunk(cur, bytes[written..]).value.router.subpartitions == r.subpartitions
      && |BroadcastChunk(cur, bytes[written..]).value.router.builders| == |r.builders|
  {
    var c := BroadcastChunk(cur, bytes[written..]).value;
    StreamsExtend(r, cur, c.router, bytes, written, c.written);
    assert bytes[..|bytes|] == bytes;
  }

  /** Every subpartition's consumers with `e` appended, and every unicast builder closed. */
  function WithEvent(r: Router, event: EventId, isPriority: bool): Router {
    r.(current := seq(|r.current|, _ => None),
       subpartitions := seq(|r.subpartitions|, j requires 0 <= j < |r.subpartitions| =>
         r.subpartitions[j] + [Event(event, isPriority)]))
  }

  /**
    `broadcastEvent`, with the broadcast builder closed along with the unicast ones: every
    subpartition, in index order, gets its open builder closed and one copy of the event, so
    every consumer reads the event after everything written before it and before everything
    written after it.
   */
  function BroadcastEvent(r: Router, event: EventId, isPriority: bool): (r': Router)
    requires Inv(r)
    ensures Inv(r') && Unchanged(r, r')
    ensures r'.broadcast == None && forall t :: 0 <= t < |r'.current| ==> r'.current[t].None?
    ensures forall j :: 0 <= j < |r.subpartitions| ==> Stream(r', j) == Stream(r, j) + [EventItem(event)]
  {
    var r' := WithEvent(r, event, isPriority).(broadcast := None);
    forall j | 0 <= j < |r.subpartitions|
      ensures RefsIn(r'.subpartitions[j], |r'.builders|)
      ensures Flatten(r'.builders, r'.subpartitions[j]) == Stream(r, j) + [EventItem(event)]
    {
      FlattenAppend(r.builders, r.subpartitions[j], Event(event, isPriority));
    }
    r'
  }

  /**
    `broadcastEvent` as the class writes it: the unicast builders are closed and the event is
    appended to every subpartition, but the broadcast builder stays open.
   */
  function BroadcastEventAsWritten(r: Router, event: EventId, isPriority: bool): (r': Router)
    requires Inv(r)
    ensures r'.broadcast == r.broadcast && r'.builders == r.builders
    ensures forall t :: 0 <= t < |r'.current| ==> r'.current[t].None?
    ensures |r'.subpartitions| == |r.subpartitions|
    ensures forall j :: 0 <= j < |r.subpartitions| ==>
      r'.subpartitions[j] == r.subpartitions[j] + [Event(event, isPriority)]
  {
    WithEvent(r, event, isPriority)
  }

  /**
    With the broadcast builder left open, bytes broadcast after an event land in front of it:
    the next broadcast record is appended to the open builder, which every subpartition
    registered before the event, so each consumer reads those bytes before the event.
   */
  lemma BroadcastEventAsWrittenReorders(r: Router, event: EventId, isPriority: bool, more: seq<byte>, j: nat)
    requires Inv(r) && r.broadcast.Some? && j < |r.subpartitions|
    requires |more| <= BroadcastRoom(r)
    ensures BroadcastEventAsWritten(r, event, isPriority).broadcast == r.broadcast
    ensures Stream(Appended(BroadcastEventAsWritten(r, event, isPriority), r.broadcast.value, more), j) ==
      Stream(r, j) + Bytes(more) + [EventItem(event)]
  {
    var id := r.broadcast.value;
    var r2 := BroadcastEventAsWritten(r, event, isPriority);
    var b := Appended(r2, id, more).builders;
    FlattenAppend(b, r.subpartitions[j], Event(event, isPriority));
    FlattenOpenBuilder(r.builders, r.subpartitions[j], id, more);
  }

  /**
    The smallest instance: one subpartition with two-byte segments after record [1] was
    broadcast. An event 7 and then record [2] reach the consumer as 1, 2, event 7.
   */
  lemma BroadcastEventAsWrittenCounterexample()
    ensures
      var r := Router(2, false, [BufferBuilder(2, [1])], [None], Some(0), [[Data(0)]]);
      && Inv(r)
      && Stream(r, 0) == [Byte(1)]
      && Stream(Appended(BroadcastEventAsWritten(r, 7, false), 0, [2]), 0) == [Byte(1), Byte(2), EventItem(7)]
  {
    var r := Router(2, false, [BufferBuilder(2, [1])], [None], Some(0), [[Data(0)]]);
    assert [Data(0)][..0] == [];
    assert OpenIn([Data(0)], 0);
    BroadcastEventAsWrittenReorders(r, 7, false, [2], 0);
  }

  /**
    With the broadcast builder closed by the event, the next broadcast record goes to a builder
    registered after the event, so each consumer reads the event before those bytes.
   */
  lemma BroadcastEventKeepsOrder(r: Router, event: EventId, isPriority: bool, more: seq<byte>, j: nat)
    requires Inv(r) && j < |r.subpartitions|
    requires BroadcastChunk(BroadcastEvent(r, event, isPriority), more).Ok?
    ensures
      var c := BroadcastChunk(BroadcastEvent(r, event, isPriority), more).value;
      Stream(c.router, j) == Stream(r, j) + [EventItem(event)] + Bytes(more[..c.written])
  {
  }
}
