/**
  The input channel a consuming task uses for a subpartition produced in the same process.

  It requests a view of the subpartition once, counts the buffers the view announces (see
  `Availability`) and takes them one at a time, and releases the view once. Requests that
  find no partition yet are retried later while the backoff allows it; a retry that fails
  leaves its error in the channel for the next read to report.

  The view, the partition manager and the input gate are not part of this model. What they
  answer is given to each step as an input: the outcome of creating the view, whether the
  backoff still allows a retry, and what the view's `getNextBuffer` returned.
 */
module LocalInputChannels {
  import opened Outcomes
  import opened Buffers
  import Availability

  /** Identity of a subpartition view handed out by the partition manager. */
  type ViewId = nat

  datatype Channel = Channel(
    view: Option<ViewId>,
    isReleased: bool,
    numBuffersAvailable: int,
    error: Option<Error>)

  /** What the channel asks of the rest of the system. */
  datatype Signal =
    | ChannelNonEmpty
    | RetriggerRequest
    | ScheduleRequest
    | ReleaseView(view: ViewId)
    | ViewConsumed(view: ViewId)

  /**
    How the partition manager answered a view request: a view, no view, the partition not
    found, or any other exception it threw (a released or unpinned partition, a missing
    subpartition), which the channel does not catch.
   */
  datatype Creation = Created(view: ViewId) | NullView | PartitionNotFound | Failed(error: Error)

  datatype Step = Step(channel: Channel, signals: seq<Signal>, result: Result<()>)

  function Create(): (c: Channel)
    ensures c.view.None? && !c.isReleased && c.numBuffersAvailable == 0 && c.error.None?
  {
    Channel(None, false, 0, None)
  }

  /**
    `requestSubpartition`: refused on a released channel, a no-op once a view exists.
    `releasedAtRecheck` is what the re-check of the released flag reads after the view was
    created; release takes the same lock as the request, so within this class it reads false.
   */
  function RequestSubpartition(c: Channel, outcome: Creation, backoffIncreased: bool, releasedAtRecheck: bool): (r: Step)
    ensures c.isReleased ==> r == Step(c, [], Err(IllegalState("released")))
    ensures !c.isReleased && c.view.Some? ==> r == Step(c, [], Ok(()))
    ensures r.channel.numBuffersAvailable == c.numBuffersAvailable && r.channel.error == c.error
    ensures r.channel.isReleased == (c.isReleased || (c.view.None? && outcome.Created? && releasedAtRecheck))
    ensures !c.isReleased && c.view.None? ==> match outcome {
      case Created(v) =>
        && r.result.Ok?
        && (r.channel.view == if releasedAtRecheck then None else Some(v))
        && r.signals == (if releasedAtRecheck then [ReleaseView(v)] else [])
      case NullView =>
        r == Step(c, [], Err(IOFailure("Error requesting subpartition.")))
      case PartitionNotFound =>
        && r.channel == c
        && (r.result.Ok? <==> backoffIncreased)
        && r.signals == (if backoffIncreased then [RetriggerRequest] else [])
        && (r.result.Err? ==> r.result.error == IOFailure("Partition not found."))
      case Failed(e) =>
        r == Step(c, [], Err(e))
    }
  {
    if c.isReleased then Step(c, [], Err(IllegalState("released")))
    else if c.view.Some? then Step(c, [], Ok(()))
    else match outcome
      case Created(v) =>
        if releasedAtRecheck then Step(c.(isReleased := true), [ReleaseView(v)], Ok(()))
        else Step(c.(view := Some(v)), [], Ok(()))
      case NullView => Step(c, [], Err(IOFailure("Error requesting subpartition.")))
      case PartitionNotFound =>
        if backoffIncreased then Step(c, [RetriggerRequest], Ok(()))
        else Step(c, [], Err(IOFailure("Partition not found.")))
      case Failed(e) => Step(c, [], Err(e))
  }

  /** `retriggerSubpartitionRequest`: schedules a request, only while no view was obtained. */
  function RetriggerSubpartitionRequest(c: Channel): (r: Step)
    ensures r.channel == c
    ensures r.result.Ok? <==> c.view.None?
    ensures r.result.Ok? ==> r.signals == [ScheduleRequest]
    ensures r.result.Err? ==> r.signals == [] && r.result.error == IllegalState("already requested partition")
  {
    if c.view.Some? then Step(c, [], Err(IllegalState("already requested partition")))
    else Step(c, [ScheduleRequest], Ok(()))
  }

  /** The scheduled request running later: a failure is kept as the channel's error. */
  function ScheduledRequest(c: Channel, outcome: Creation, backoffIncreased: bool): (r: Step)
    ensures r.result.Ok?
    ensures r.channel.view == RequestSubpartition(c, outcome, backoffIncreased, false).channel.view
    ensures RequestSubpartition(c, outcome, backoffIncreased, false).result.Err? ==>
      r.channel.error == Some(RequestSubpartition(c, outcome, backoffIncreased, false).result.error)
    ensures RequestSubpartition(c, outcome, backoffIncreased, false).result.Ok? ==> r.channel.error == c.error
  {
    var s := RequestSubpartition(c, outcome, backoffIncreased, false);
    match s.result
    case Ok(_) => s
    case Err(e) => Step(s.channel.(error := Some(e)), s.signals, Ok(()))
  }

  /** A buffer and whether the view has announced more. */
  datatype BufferAndAvailability = BufferAndAvailability(buffer: Buffer, moreAvailable: bool)

  datatype Read = Read(channel: Channel, result: Result<BufferAndAvailability>)

  /**
    `getNextBuffer`: a stored error is reported first; then the view must exist. The view's
    answer `polled` is taken, and only then is one buffer taken off the count: a read the
    view did not announce fails, and the decrement stays.
   */
  function GetNextBuffer(c: Channel, polled: Result<Option<Buffer>>): (r: Read)
    ensures c.error.Some? ==> r == Read(c, Err(c.error.value))
    ensures c.error.None? && c.view.None? ==>
      r == Read(c, Err(IllegalState("Queried for a buffer before requesting the subpartition.")))
    ensures c.error.None? && c.view.Some? && polled.Err? ==> r == Read(c, Err(polled.error))
    ensures c.error.None? && c.view.Some? && polled.Ok? ==>
      r.channel == c.(numBuffersAvailable := c.numBuffersAvailable - 1)
    ensures r.result.Ok? <==> c.error.None? && c.view.Some? && polled.Ok? && polled.value.Some? && c.numBuffersAvailable >= 1
    ensures r.result.Ok? ==> r.result.value.buffer == polled.value.value
    ensures r.result.Ok? ==> (r.result.value.moreAvailable <==> c.numBuffersAvailable >= 2)
    ensures c.error.None? && c.view.Some? && polled.Ok? && c.numBuffersAvailable < 1 ==>
      r.result == Err(IllegalState("no buffer available"))
    ensures r.channel.view == c.view && r.channel.isReleased == c.isReleased && r.channel.error == c.error
  {
    if c.error.Some? then Read(c, Err(c.error.value))
    else if c.view.None? then Read(c, Err(IllegalState("Queried for a buffer before requesting the subpartition.")))
    else match polled
      case Err(e) => Read(c, Err(e))
      case Ok(next) =>
        var t := Availability.Take(c.numBuffersAvailable);
        var c' := c.(numBuffersAvailable := t.counter);
        match t.moreAvailable
        case Err(e) => Read(c', Err(e))
        case Ok(more) =>
          if next.None? then Read(c', Err(NullPointer))
          else Read(c', Ok(BufferAndAvailability(next.value, more)))
  }

  /** `notifyBuffersAvailable`: tells the gate the channel became non-empty only on 0 → positive. */
  function NotifyBuffersAvailable(c: Channel, n: int): (r: Step)
    ensures r.result.Ok?
    ensures r.channel == c.(numBuffersAvailable := Availability.Add(c.numBuffersAvailable, n).counter)
    ensures r.signals == if n > 0 && c.numBuffersAvailable == 0 then [ChannelNonEmpty] else []
  {
    var a := Availability.Add(c.numBuffersAvailable, n);
    Step(c.(numBuffersAvailable := a.counter), if a.signalled then [ChannelNonEmpty] else [], Ok(()))
  }

  /** `notifySubpartitionConsumed`: forwarded to the view, if there is one. */
  function NotifySubpartitionConsumed(c: Channel): (r: Step)
    ensures r.channel == c && r.result.Ok?
    ensures r.signals == if c.view.Some? then [ViewConsumed(c.view.value)] else []
  {
    Step(c, if c.view.Some? then [ViewConsumed(c.view.value)] else [], Ok(()))
  }

  /** `releaseAllResources`: the first call marks the channel released and releases and drops its view. */
  function ReleaseAllResources(c: Channel): (r: Step)
    ensures r.result.Ok? && r.channel.isReleased
    ensures c.isReleased ==> r.channel == c && r.signals == []
    ensures !c.isReleased ==> r.channel.view.None?
    ensures !c.isReleased ==> r.signals == if c.view.Some? then [ReleaseView(c.view.value)] else []
    ensures r.channel.numBuffersAvailable == c.numBuffersAvailable && r.channel.error == c.error
  {
    if c.isReleased then Step(c, [], Ok(()))
    else Step(c.(isReleased := true, view := None), if c.view.Some? then [ReleaseView(c.view.value)] else [], Ok(()))
  }

  /**
    `sendTaskEvent`: reported errors first, then the view must exist; `published` is whether
    the task event dispatcher found the producer.
   */
  function SendTaskEvent(c: Channel, published: bool): (r: Result<()>)
    ensures r.Ok? <==> c.error.None? && c.view.Some? && published
    ensures c.error.Some? ==> r == Err(c.error.value)
    ensures c.error.None? && c.view.None? ==>
      r == Err(IllegalState("Tried to send task event to producer before requesting the subpartition."))
    ensures c.error.None? && c.view.Some? && !published ==>
      r == Err(IOFailure("Error while publishing event to producer. The producer could not be found."))
  {
    if c.error.Some? then Err(c.error.value)
    else if c.view.None? then Err(IllegalState("Tried to send task event to producer before requesting the subpartition."))
    else if !published then Err(IOFailure("Error while publishing event to producer. The producer could not be found."))
    else Ok(())
  }

  /** A released channel keeps no view: the state every release leaves behind. */
  predicate Wf(c: Channel) {
    c.isReleased ==> c.view.None?
  }

  datatype Call =
    | Request(outcome: Creation, backoffIncreased: bool)
    | Retrigger
    | Scheduled(outcome: Creation, backoffIncreased: bool)
    | GetNext(polled: Result<Option<Buffer>>)
    | NotifyAvailable(count: int)
    | NotifyConsumed
    | ReleaseAll
    | SendEvent(published: bool)

  /** One call, with the released flag re-check reading the channel's own flag. */
  function Apply(c: Channel, call: Call): (r: Step)
    requires Wf(c)
    ensures Wf(r.channel)
    ensures c.isReleased ==> r.channel.isReleased
    ensures forall v: ViewId :: ReleaseView(v) in r.signals ==> c.view == Some(v) && !c.isReleased && r.channel.view.None?
  {
    match call
    case Request(o, b) => RequestSubpartition(c, o, b, c.isReleased)
    case Retrigger => RetriggerSubpartitionRequest(c)
    case Scheduled(o, b) => ScheduledRequest(c, o, b)
    case GetNext(p) => Step(GetNextBuffer(c, p).channel, [], Ok(()))
    case NotifyAvailable(n) => NotifyBuffersAvailable(c, n)
    case NotifyConsumed => NotifySubpartitionConsumed(c)
    case ReleaseAll => ReleaseAllResources(c)
    case SendEvent(published) => Step(c, [], SendTaskEvent(c, published))
  }

  datatype Trace = Trace(channel: Channel, signals: seq<Signal>)

  function Run(c: Channel, calls: seq<Call>): (t: Trace)
    requires Wf(c)
    ensures Wf(t.channel)
    decreases |calls|
  {
    if calls == [] then Trace(c, [])
    else
      var t := Run(c, calls[..|calls| - 1]);
      var s := Apply(t.channel, calls[|calls| - 1]);
      Trace(s.channel, t.signals + s.signals)
  }

  /**
    Request-once, release-once: whatever the calls, each view the channel obtains is released
    at most once, and only while the channel holds it; once released the channel stays
    released and holds no view.
   */
  lemma {:induction false} ViewReleasedAtMostOnce(c: Channel, calls: seq<Call>, v: ViewId)
    requires Wf(c)
    ensures c.isReleased ==> Run(c, calls).channel.isReleased && Run(c, calls).channel.view.None?
    ensures Count(Run(c, calls).signals, ReleaseView(v)) + (if Run(c, calls).channel.view == Some(v) then 1 else 0)
      <= (if c.view == Some(v) then 1 else 0) + Obtained(calls, v)
    decreases |calls|
  {
    if calls != [] {
      var init := calls[..|calls| - 1];
      var t := Run(c, init);
      var s := Apply(t.channel, calls[|calls| - 1]);
      ViewReleasedAtMostOnce(c, init, v);
      CountAppend(t.signals, s.signals, ReleaseView(v));
      ApplyReleasesHeldView(t.channel, calls[|calls| - 1], v);
    }
  }

  /** How many of `calls` hand the channel view `v`. */
  function Obtained(calls: seq<Call>, v: ViewId): nat
    decreases |calls|
  {
    if calls == [] then 0
    else
      var c := calls[|calls| - 1];
      Obtained(calls[..|calls| - 1], v) + if (c.Request? || c.Scheduled?) && c.outcome == Created(v) then 1 else 0
  }

  /** One call releases view `v` only if the channel held it, and then drops it. */
  lemma ApplyReleasesHeldView(c: Channel, call: Call, v: ViewId)
    requires Wf(c)
    ensures Count(Apply(c, call).signals, ReleaseView(v)) + (if Apply(c, call).channel.view == Some(v) then 1 else 0)
      <= (if c.view == Some(v) then 1 else 0) + Obtained([call], v)
  {
    var r := Apply(c, call);
    assert Obtained([call], v) == Obtained([call][..0], v) + (if (call.Request? || call.Scheduled?) && call.outcome == Created(v) then 1 else 0);
    if ReleaseView(v) in r.signals {
      assert r.signals == [ReleaseView(v)];
    }
  }

  /** Whether `calls` contains a `releaseAllResources`. */
  function ReleasesAll(calls: seq<Call>): bool
    decreases |calls|
  {
    calls != [] && (ReleasesAll(calls[..|calls| - 1]) || calls[|calls| - 1].ReleaseAll?)
  }

  /** Whether some request or scheduled request among `calls` was answered with a view. */
  function AnsweredWithView(calls: seq<Call>): bool
    decreases |calls|
  {
    calls != [] && (AnsweredWithView(calls[..|calls| - 1]) ||
      var c := calls[|calls| - 1]; (c.Request? || c.Scheduled?) && c.outcome.Created?)
  }

  /**
    A live channel holds a view exactly when it already had one or some request was answered
    with one, and it was not released since; a released channel never holds one again.
   */
  lemma {:induction false} HoldsViewUntilReleased(c: Channel, calls: seq<Call>)
    requires Wf(c)
    ensures Run(c, calls).channel.view.Some? <==>
      !c.isReleased && !ReleasesAll(calls) && (c.view.Some? || AnsweredWithView(calls))
    ensures Run(c, calls).channel.isReleased <==> c.isReleased || ReleasesAll(calls)
    decreases |calls|
  {
    if calls != [] {
      HoldsViewUntilReleased(c, calls[..|calls| - 1]);
    }
  }

  /**
    A task event reaches the producer only through a held view: from a fresh channel, sending
    succeeds exactly when a request was answered with a view, the channel was not released,
    no failed scheduled request left an error, and the dispatcher found the producer.
   */
  lemma SendTaskEventNeedsView(calls: seq<Call>, published: bool)
    ensures SendTaskEvent(Run(Create(), calls).channel, published).Ok? <==>
      && AnsweredWithView(calls) && !ReleasesAll(calls)
      && Run(Create(), calls).channel.error.None? && published
  {
    HoldsViewUntilReleased(Create(), calls);
  }
}
