/**
  The network buffer: a pooled memory segment with independent reader and writer
  cursors, a reference count and a data/event tag.

  The three regions of the segment are
    [0, readerIndex)            discardable bytes,
    [readerIndex, writerIndex)  readable bytes,
    [writerIndex, size)         writable bytes,
  and every operation keeps 0 <= readerIndex <= writerIndex <= size.
 */
module Buffers {
  import opened Outcomes

  newtype byte = b: int | 0 <= b < 256

  datatype Buffer = Buffer(
    segment: seq<byte>,
    readerIndex: int,
    writerIndex: int,
    refCount: nat,
    isBuffer: bool)

  /** The index-region invariant of the buffer interface. */
  predicate Valid(b: Buffer) {
    0 <= b.readerIndex <= b.writerIndex <= |b.segment|
  }

  /** Capacity of the backing memory segment. */
  function Size(b: Buffer): nat {
    |b.segment|
  }

  /** A buffer is recycled once its reference count has dropped to zero. */
  predicate IsRecycled(b: Buffer) {
    b.refCount == 0
  }

  function ReadableBytes(b: Buffer): int {
    b.writerIndex - b.readerIndex
  }

  /** A freshly obtained data buffer over `segment`: empty, held once. */
  function Fresh(segment: seq<byte>): (b: Buffer)
    ensures Valid(b) && !IsRecycled(b) && b.isBuffer
    ensures Readable(b) == []
  {
    Buffer(segment, 0, 0, 1, true)
  }

  /** Returns a buffer tagged as an event; the contents and cursors are untouched. */
  function TagAsEvent(b: Buffer): (r: Buffer)
    ensures !r.isBuffer
    ensures r.segment == b.segment && r.readerIndex == b.readerIndex
    ensures r.writerIndex == b.writerIndex && r.refCount == b.refCount
  {
    b.(isBuffer := false)
  }

  function SetReaderIndex(b: Buffer, readerIndex: int): (r: Result<Buffer>)
    requires Valid(b)
    ensures r.Ok? <==> 0 <= readerIndex <= b.writerIndex
    ensures r.Ok? ==> Valid(r.value) && r.value.readerIndex == readerIndex
    ensures r.Ok? ==> r.value.segment == b.segment && r.value.writerIndex == b.writerIndex
    ensures r.Ok? ==> r.value.refCount == b.refCount && r.value.isBuffer == b.isBuffer
  {
    if readerIndex < 0 || readerIndex > b.writerIndex then Err(IndexOutOfBounds(""))
    else Ok(b.(readerIndex := readerIndex))
  }

  function SetWriterIndex(b: Buffer, writerIndex: int): (r: Result<Buffer>)
    requires Valid(b)
    ensures r.Ok? <==> b.readerIndex <= writerIndex <= Size(b)
    ensures r.Ok? ==> Valid(r.value) && r.value.writerIndex == writerIndex
    ensures r.Ok? ==> r.value.segment == b.segment && r.value.readerIndex == b.readerIndex
    ensures r.Ok? ==> r.value.refCount == b.refCount && r.value.isBuffer == b.isBuffer
  {
    if writerIndex < b.readerIndex || writerIndex > Size(b) then Err(IndexOutOfBounds(""))
    else Ok(b.(writerIndex := writerIndex))
  }

  /** The bytes between the reader and the writer index; neither index moves. */
  function Readable(b: Buffer): (r: seq<byte>)
    requires Valid(b)
    ensures |r| == ReadableBytes(b)
    ensures forall i :: 0 <= i < |r| ==> r[i] == b.segment[b.readerIndex + i]
  {
    b.segment[b.readerIndex..b.writerIndex]
  }

  /**
    An encoder writing `payload` into the writable region of the segment and then
    publishing it by moving the writer index, the way non-Netty users of the
    buffer update it by hand.
   */
  function Write(b: Buffer, payload: seq<byte>): (r: Result<Buffer>)
    requires Valid(b)
    ensures r.Ok? <==> |payload| <= Size(b) - b.writerIndex
    ensures r.Ok? ==> Valid(r.value) && Size(r.value) == Size(b)
    ensures r.Ok? ==> r.value.readerIndex == b.readerIndex
    ensures r.Ok? ==> r.value.writerIndex == b.writerIndex + |payload|
    ensures r.Ok? ==> Readable(r.value) == Readable(b) + payload
    ensures r.Ok? ==> r.value.refCount == b.refCount && r.value.isBuffer == b.isBuffer
  {
    if |payload| > Size(b) - b.writerIndex then Err(IndexOutOfBounds(""))
    else
      var segment := b.segment[..b.writerIndex] + payload + b.segment[b.writerIndex + |payload|..];
      SetWriterIndex(b.(segment := segment), b.writerIndex + |payload|)
  }

  /** Takes one more reference; a recycled buffer cannot be revived. */
  function Retain(b: Buffer): (r: Result<Buffer>)
    ensures r.Ok? <==> !IsRecycled(b)
    ensures r.Ok? ==> r.value.refCount == b.refCount + 1
    ensures r.Ok? ==> r.value.(refCount := b.refCount) == b
  {
    if IsRecycled(b) then Err(IllegalState(""))
    else Ok(b.(refCount := b.refCount + 1))
  }

  /** The buffer after one release and whether that release handed it back to its pool. */
  datatype Recycling = Recycling(buffer: Buffer, returnedToPool: bool)

  /** Drops one reference; the segment returns to the pool exactly when the count reaches 0. */
  function Recycle(b: Buffer): (r: Result<Recycling>)
    ensures r.Ok? <==> !IsRecycled(b)
    ensures r.Ok? ==> r.value.buffer.refCount + 1 == b.refCount
    ensures r.Ok? ==> r.value.buffer.(refCount := b.refCount) == b
    ensures r.Ok? ==> (r.value.returnedToPool <==> IsRecycled(r.value.buffer))
  {
    if IsRecycled(b) then Err(IllegalState(""))
    else
      var b' := b.(refCount := b.refCount - 1);
      Ok(Recycling(b', IsRecycled(b')))
  }

  /** The outcome of `k` successive releases: the final buffer and how often it went back to the pool. */
  function RecycleTimes(b: Buffer, k: nat): Result<Recycling>
    decreases k
  {
    if k == 0 then Ok(Recycling(b, false))
    else
      match Recycle(b)
      case Err(e) => Err(e)
      case Ok(Recycling(b', returned)) =>
        match RecycleTimes(b', k - 1)
        case Err(e) => Err(e)
        case Ok(Recycling(b'', later)) => Ok(Recycling(b'', returned || later))
  }

  /** A released retain is a no-op: retain followed by recycle restores the buffer without recycling it. */
  lemma RetainThenRecycle(b: Buffer)
    requires !IsRecycled(b)
    ensures Retain(b).Ok?
    ensures Recycle(Retain(b).value) == Ok(Recycling(b, false))
  {
  }

  /**
    Releasing a buffer as often as it is referenced returns it to the pool, and only the last
    release does; one release more is a detected double recycle.
   */
  lemma {:induction false} RecycleExactlyOnce(b: Buffer, k: nat)
    ensures k <= b.refCount ==> RecycleTimes(b, k).Ok?
    ensures k <= b.refCount ==> RecycleTimes(b, k).value.buffer.refCount == b.refCount - k
    ensures k <= b.refCount ==>
      (RecycleTimes(b, k).value.returnedToPool <==> (k == b.refCount && k > 0))
    ensures k > b.refCount ==> RecycleTimes(b, k).Err?
    decreases k
  {
    if k > 0 {
      if !IsRecycled(b) {
        var b' := b.(refCount := b.refCount - 1);
        assert Recycle(b) == Ok(Recycling(b', IsRecycled(b')));
        RecycleExactlyOnce(b', k - 1);
      }
    }
  }

  /** What an encoder writes into an empty buffer is exactly what the readable view returns. */
  lemma WriteThenReadable(b: Buffer, payload: seq<byte>)
    requires Valid(b) && b.readerIndex == b.writerIndex
    requires |payload| <= Size(b) - b.writerIndex
    ensures Write(b, payload).Ok?
    ensures Readable(Write(b, payload).value) == payload
  {
    var r := Write(b, payload).value;
    assert forall i :: 0 <= i < |payload| ==> r.segment[b.writerIndex + i] == payload[i];
  }

  /**
    The event tag is independent of the buffer's contents and its reference counting: a
    tagged buffer is valid and readable exactly as before, and retaining or recycling it
    gives the tagged version of retaining or recycling the untagged one.
   */
  lemma TagAsEventCommutes(b: Buffer)
    ensures Valid(TagAsEvent(b)) <==> Valid(b)
    ensures Valid(b) ==> Readable(TagAsEvent(b)) == Readable(b)
    ensures Retain(TagAsEvent(b)).Ok? <==> Retain(b).Ok?
    ensures Retain(b).Ok? ==> Retain(TagAsEvent(b)).value == TagAsEvent(Retain(b).value)
    ensures Recycle(TagAsEvent(b)).Ok? <==> Recycle(b).Ok?
    ensures Recycle(b).Ok? ==>
      Recycle(TagAsEvent(b)).value == Recycling(TagAsEvent(Recycle(b).value.buffer), Recycle(b).value.returnedToPool)
  {
  }
}
