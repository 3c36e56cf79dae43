/**
  The network server's reader of one subpartition view on behalf of one remote receiver.

  It requests its view exactly once, counts the buffers the view announces (see
  `Availability`), and numbers the buffers it sends: the sequence number starts at -1 and
  goes up by one for every buffer that carries readable bytes, so a re-sent buffer with no
  new data keeps the number of the previous one.

  The partition provider and the view are not part of this model: the outcome of creating
  the view and what its `getNextBuffer` returned are inputs to the steps.
 */
module SequenceNumberingReaders {
  import opened Outcomes
  import opened Buffers
  import Availability

  type ViewId = nat

  datatype Reader = Reader(view: Option<ViewId>, numBuffersAvailable: int, sequenceNumber: int)

  function Create(): (r: Reader)
    ensures r.view.None? && r.numBuffersAvailable == 0 && r.sequenceNumber == -1
  {
    Reader(None, 0, -1)
  }

  datatype Requested = Requested(reader: Reader, result: Result<()>)

  /**
    `requestSubpartitionView`: only the first request reaches the partition provider, whose
    answer is `created`; any later one is refused.
   */
  function RequestSubpartitionView(r: Reader, created: Result<ViewId>): (q: Requested)
    ensures r.view.Some? ==> q == Requested(r, Err(IllegalState("Subpartition already requested")))
    ensures r.view.None? && created.Ok? ==> q == Requested(r.(view := Some(created.value)), Ok(()))
    ensures r.view.None? && created.Err? ==> q == Requested(r, Err(created.error))
  {
    if r.view.Some? then Requested(r, Err(IllegalState("Subpartition already requested")))
    else match created
      case Ok(v) => Requested(r.(view := Some(v)), Ok(()))
      case Err(e) => Requested(r, Err(e))
  }

  /** What is sent: the buffer, the part of it that is ready, and whether more is announced. */
  datatype BufferAndAvailability = BufferAndAvailability(buffer: Buffer, readerIndex: int, readableBytes: int, moreAvailable: bool)

  datatype Read = Read(reader: Reader, result: Result<Option<BufferAndAvailability>>)

  /**
    `getNextBuffer`, given the view's answer `polled`. A buffer takes one off the count and
    advances the sequence number when it has readable bytes, both before the count is
    checked: a buffer that was not announced fails, and both changes stay.
   */
  function GetNextBuffer(r: Reader, polled: Result<Option<Buffer>>): (q: Read)
    ensures r.view.None? ==> q == Read(r, Err(NullPointer))
    ensures r.view.Some? && polled.Err? ==> q == Read(r, Err(polled.error))
    ensures r.view.Some? && polled == Ok(None) ==> q == Read(r, Ok(None))
    ensures r.view.Some? && polled.Ok? && polled.value.Some? ==>
      var b := polled.value.value;
      && q.reader.view == r.view
      && q.reader.numBuffersAvailable == r.numBuffersAvailable - 1
      && q.reader.sequenceNumber == r.sequenceNumber + (if ReadableBytes(b) > 0 then 1 else 0)
      && (q.result.Ok? <==> r.numBuffersAvailable >= 1)
      && (q.result.Ok? ==> q.result.value == Some(BufferAndAvailability(b, b.readerIndex, ReadableBytes(b), r.numBuffersAvailable >= 2)))
      && (q.result.Err? ==> q.result.error == IllegalState("no buffer available"))
  {
    if r.view.None? then Read(r, Err(NullPointer))
    else match polled
      case Err(e) => Read(r, Err(e))
      case Ok(None) => Read(r, Ok(None))
      case Ok(Some(b)) =>
        var t := Availability.Take(r.numBuffersAvailable);
        var readable := ReadableBytes(b);
        var r' := r.(numBuffersAvailable := t.counter, sequenceNumber := r.sequenceNumber + if readable > 0 then 1 else 0);
        match t.moreAvailable
        case Err(e) => Read(r', Err(e))
        case Ok(more) => Read(r', Ok(Some(BufferAndAvailability(b, b.readerIndex, readable, more))))
  }

  datatype Notified = Notified(reader: Reader, readerNonEmpty: bool)

  /** `notifyBuffersAvailable`: the request queue hears of the reader only on 0 → positive. */
  function NotifyBuffersAvailable(r: Reader, n: int): (q: Notified)
    ensures q.readerNonEmpty <==> n > 0 && r.numBuffersAvailable == 0
    ensures q.reader == r.(numBuffersAvailable := if n > 0 then r.numBuffersAvailable + n else r.numBuffersAvailable)
  {
    var a := Availability.Add(r.numBuffersAvailable, n);
    Notified(r.(numBuffersAvailable := a.counter), a.signalled)
  }

  /**
    `notifySubpartitionConsumed`, `isReleased`, `getFailureCause` and `releaseAllResources`
    are passed to the view as they are; before a view exists each fails on the missing view.
   */
  function Forward(r: Reader): (q: Result<ViewId>)
    ensures q.Ok? <==> r.view.Some?
    ensures q.Ok? ==> q.value == r.view.value
    ensures q.Err? ==> q.error == NullPointer
  {
    if r.view.Some? then Ok(r.view.value) else Err(NullPointer)
  }

  /** One call on the reader; `PassOn` is any of the calls `Forward` passes to the view. */
  datatype Call = Request(created: Result<ViewId>) | GetNext(polled: Result<Option<Buffer>>) | NotifyAvailable(count: int) | PassOn

  function Apply(r: Reader, c: Call): (q: Reader)
    ensures q.sequenceNumber >= r.sequenceNumber
    ensures r.view.Some? ==> q.view == r.view
  {
    match c
    case Request(created) => RequestSubpartitionView(r, created).reader
    case GetNext(polled) => GetNextBuffer(r, polled).reader
    case NotifyAvailable(n) => NotifyBuffersAvailable(r, n).reader
    case PassOn => r
  }

  /** The reader after `calls`, and the sequence number of every data buffer it sent, in order. */
  datatype Trace = Trace(reader: Reader, sent: seq<int>)

  function Run(r: Reader, calls: seq<Call>): Trace
    decreases |calls|
  {
    if calls == [] then Trace(r, [])
    else
      var t := Run(r, calls[..|calls| - 1]);
      var c := calls[|calls| - 1];
      var q := Apply(t.reader, c);
      var sent := if c.GetNext? && GetNextBuffer(t.reader, c.polled).result.Ok? && c.polled.value.Some? && ReadableBytes(c.polled.value.value) > 0
        then [q.sequenceNumber] else [];
      Trace(q, t.sent + sent)
  }

  /** Whether a call hands the reader a buffer with readable bytes while it has a view. */
  predicate Numbers(r: Reader, c: Call) {
    r.view.Some? && c.GetNext? && c.polled.Ok? && c.polled.value.Some? && ReadableBytes(c.polled.value.value) > 0
  }

  /**
    Data buffers are sent with strictly increasing sequence numbers, all above the number the
    reader started with and none above its current one, so a receiver never sees a number twice.
    The numbers need not be consecutive: a read that the availability counter had not announced
    still uses up a number.
   */
  lemma {:induction false} SentNumbersIncreasing(r: Reader, calls: seq<Call>)
    ensures Run(r, calls).reader.sequenceNumber >= r.sequenceNumber
    ensures forall i :: 0 <= i < |Run(r, calls).sent| ==> r.sequenceNumber < Run(r, calls).sent[i] <= Run(r, calls).reader.sequenceNumber
    ensures forall i :: 0 < i < |Run(r, calls).sent| ==> Run(r, calls).sent[i - 1] < Run(r, calls).sent[i]
    decreases |calls|
  {
    if calls != [] {
      var init := calls[..|calls| - 1];
      SentNumbersIncreasing(r, init);
      var t := Run(r, init);
      var c := calls[|calls| - 1];
      if c.GetNext? && GetNextBuffer(t.reader, c.polled).result.Ok? && c.polled.value.Some? && ReadableBytes(c.polled.value.value) > 0 {
        assert Apply(t.reader, c).sequenceNumber == t.reader.sequenceNumber + 1;
      } else {
        assert Run(r, calls).sent == t.sent;
        assert Run(r, calls).reader.sequenceNumber >= t.reader.sequenceNumber;
      }
    }
  }

  /** How many calls of `calls`, applied from `r`, advance the sequence number. */
  function Advances(r: Reader, calls: seq<Call>): nat
    decreases |calls|
  {
    if calls == [] then 0
    else
      var init := calls[..|calls| - 1];
      Advances(r, init) + if Numbers(Run(r, init).reader, calls[|calls| - 1]) then 1 else 0
  }

  /**
    The sequence number counts exactly the buffers with readable bytes the view returned,
    including one that then failed for lack of an announcement.
   */
  lemma {:induction false} SequenceNumberCountsDataBuffers(r: Reader, calls: seq<Call>)
    ensures Run(r, calls).reader.sequenceNumber == r.sequenceNumber + Advances(r, calls)
    decreases |calls|
  {
    if calls != [] {
      SequenceNumberCountsDataBuffers(r, calls[..|calls| - 1]);
    }
  }

  /** Once a view was obtained no later request can replace it. */
  lemma {:induction false} ViewRequestedOnce(r: Reader, calls: seq<Call>)
    requires r.view.Some?
    ensures Run(r, calls).reader.view == r.view
    decreases |calls|
  {
    if calls != [] {
      ViewRequestedOnce(r, calls[..|calls| - 1]);
    }
  }

  /** Whether some request among `calls` was answered with a view. */
  function AnsweredWithView(calls: seq<Call>): bool
    decreases |calls|
  {
    calls != [] && (AnsweredWithView(calls[..|calls| - 1]) ||
      (calls[|calls| - 1].Request? && calls[|calls| - 1].created.Ok?))
  }

  /**
    The calls passed on to the view reach it exactly when the reader had a view or some
    request was answered with one; before that each of them fails on the missing view.
   */
  lemma {:induction false} ForwardNeedsRequestedView(r: Reader, calls: seq<Call>)
    ensures Forward(Run(r, calls).reader).Ok? <==> r.view.Some? || AnsweredWithView(calls)
    ensures r.view.Some? ==> Forward(Run(r, calls).reader) == Forward(r)
    decreases |calls|
  {
    if calls != [] {
      ForwardNeedsRequestedView(r, calls[..|calls| - 1]);
    }
  }
}
