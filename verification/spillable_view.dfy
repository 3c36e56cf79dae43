/**
  The view a consumer holds over a spillable subpartition: it serves the subpartition's
  buffers from memory until the memory is reclaimed, then spills the queued buffers to disk
  and serves them from the spill file.

  The head buffer (`nextBuffer`) always stays in memory. The spill moves the rest of the
  queue, in order, into the spill file and recycles each in-memory buffer. What the spill file
  gives back is modelled as the sequence of buffers written to it; its own view is reduced to
  that sequence and a release flag, and is released when asked to be or when the parent
  subpartition is.

  Producer appends after the view was created are not part of this model: the view is read
  over a finished subpartition.
 */
module SpillableViews {
  import opened Outcomes
  import opened Buffers

  /** What the view over the spill file holds: the spilled buffers not yet read back. */
  datatype SpilledView = SpilledView(unread: seq<Buffer>, isReleased: bool)

  datatype View = View(
    parentReleased: bool,
    nextBuffer: Option<Buffer>,
    buffers: seq<Buffer>,
    isReleased: bool,
    spilled: Option<SpilledView>)

  /** What the view passes on: to its listener, its parent, its spilled view or the buffer pool. */
  datatype Signal =
    | BuffersAvailable(count: int)
    | ParentConsumed
    | SpilledConsumed
    | SpilledReleased
    | Recycled(buffer: Buffer)

  /** Nothing queued behind an empty head, and nothing left in memory behind a spill. */
  predicate Wf(v: View) {
    && (v.nextBuffer.None? ==> v.buffers == [])
    && (v.spilled.Some? ==> v.buffers == [])
  }

  function AsSeq(b: Option<Buffer>): seq<Buffer> {
    if b.Some? then [b.value] else []
  }

  /** Every buffer the view can still hand out, in the order it will hand them out. */
  function Pending(v: View): seq<Buffer> {
    AsSeq(v.nextBuffer) + v.buffers + (if v.spilled.Some? then v.spilled.value.unread else [])
  }

  datatype Step = Step(view: View, signals: seq<Signal>)

  /** The constructor: the head of the queue moves into `nextBuffer`, announced if it exists. */
  function Create(parentReleased: bool, queue: seq<Buffer>): (r: Step)
    ensures Wf(r.view) && Pending(r.view) == queue
    ensures !r.view.isReleased && r.view.spilled.None? && r.view.parentReleased == parentReleased
    ensures queue != [] ==> r.view.nextBuffer == Some(queue[0])
    ensures r.signals == if queue == [] then [] else [BuffersAvailable(1)]
  {
    if queue == [] then Step(View(parentReleased, None, [], false, None), [])
    else Step(View(parentReleased, Some(queue[0]), queue[1..], false, None), [BuffersAvailable(1)])
  }

  /** One recycling per buffer, in queue order. */
  function Recycles(buffers: seq<Buffer>): (r: seq<Signal>)
    ensures |r| == |buffers| && forall i :: 0 <= i < |buffers| ==> r[i] == Recycled(buffers[i])
  {
    seq(|buffers|, i requires 0 <= i < |buffers| => Recycled(buffers[i]))
  }

  /** The view after a memory release, what it passed on, and how many buffers it spilled. */
  datatype Spill = Spill(view: View, signals: seq<Signal>, released: nat)

  /**
    `releaseMemory` as the class writes it: with a head buffer and nothing spilled yet, every
    queued buffer behind the head goes to the spill file, in order, and is recycled.
   */
  function ReleaseMemoryAsWritten(v: View): (r: Spill)
    ensures v.spilled.Some? || v.nextBuffer.None? ==> r == Spill(v, [], 0)
    ensures v.spilled.None? && v.nextBuffer.Some? ==>
      && r.released == |v.buffers|
      && r.signals == Recycles(v.buffers)
      && r.view.spilled == Some(SpilledView(v.buffers, false))
      && r.view.buffers == []
    ensures r.view.nextBuffer == v.nextBuffer && r.view.isReleased == v.isReleased
    ensures r.view.parentReleased == v.parentReleased
    ensures v.spilled.Some? ==> r.view.spilled == v.spilled
    ensures Pending(r.view) == Pending(v)
    ensures Wf(v) ==> Wf(r.view)
  {
    if v.spilled.Some? || v.nextBuffer.None? then Spill(v, [], 0)
    else
      var r := Spill(v.(buffers := [], spilled := Some(SpilledView(v.buffers, false))), Recycles(v.buffers), |v.buffers|);
      assert Pending(r.view) == AsSeq(v.nextBuffer) + [] + v.buffers;
      r
  }

  /** `releaseMemory` that leaves a released view alone, as it leaves a spilled one. */
  function ReleaseMemory(v: View): (r: Spill)
    ensures v.isReleased ==> r == Spill(v, [], 0)
    ensures !v.isReleased ==> r == ReleaseMemoryAsWritten(v)
    ensures Pending(r.view) == Pending(v)
    ensures Wf(v) ==> Wf(r.view)
  {
    if v.isReleased then Spill(v, [], 0) else ReleaseMemoryAsWritten(v)
  }

  /**
    The memory release a run uses: the class's own when `guarded` is false, the one that leaves
    a released view alone when it is true. Every run property below holds for both.
   */
  function ReleaseMemoryIn(v: View, guarded: bool): (r: Spill)
    ensures r.view.isReleased == v.isReleased && r.view.parentReleased == v.parentReleased
    ensures Pending(r.view) == Pending(v)
    ensures Wf(v) ==> Wf(r.view)
    ensures v.spilled.Some? ==> r == Spill(v, [], 0)
    ensures SpilledReleased !in r.signals
  {
    var r := if guarded then ReleaseMemory(v) else ReleaseMemoryAsWritten(v);
    assert forall i :: 0 <= i < |r.signals| ==> r.signals[i].Recycled?;
    r
  }

  /** `isReleased`: the spilled view's flag once spilled, else the parent's or the view's own. */
  predicate IsReleased(v: View) {
    if v.spilled.Some? then v.parentReleased || v.spilled.value.isReleased
    else v.parentReleased || v.isReleased
  }

  datatype Polled = Polled(view: View, signals: seq<Signal>, next: Result<Option<Buffer>>)

  /**
    `getNextBuffer`: nothing after release; otherwise the head buffer, refilled from the queue
    and announced if the queue had more; otherwise the next spilled buffer; an in-memory view
    with nothing left is an error.
   */
  function GetNextBuffer(v: View): (r: Polled)
    requires Wf(v)
    ensures Wf(r.view)
    ensures v.isReleased ==> r == Polled(v, [], Ok(None))
    ensures !v.isReleased ==>
      (r.next.Err? <==> v.nextBuffer.None? && v.spilled.None?)
    ensures r.next.Err? ==>
      r.next.error == IllegalState("No in-memory buffers available, but also nothing spilled.")
    ensures r.next.Ok? && r.next.value.Some? ==>
      !v.isReleased && [r.next.value.value] + Pending(r.view) == Pending(v)
    ensures r.next.Ok? && r.next.value.None? ==> r.view == v && (!v.isReleased ==> Pending(v) == [])
    ensures r.next.Err? ==> r.view == v && Pending(v) == []
    ensures r.signals == if !v.isReleased && v.nextBuffer.Some? && v.buffers != [] then [BuffersAvailable(1)] else []
    ensures r.view.isReleased == v.isReleased && r.view.parentReleased == v.parentReleased
    ensures r.view.spilled.Some? <==> v.spilled.Some?
    ensures r.view.spilled.Some? ==> r.view.spilled.value.isReleased == v.spilled.value.isReleased
  {
    if v.isReleased then Polled(v, [], Ok(None))
    else if v.nextBuffer.Some? then
      var refill := if v.buffers == [] then None else Some(v.buffers[0]);
      var rest := if v.buffers == [] then [] else v.buffers[1..];
      var signals := if refill.Some? then [BuffersAvailable(1)] else [];
      Polled(v.(nextBuffer := refill, buffers := rest), signals, Ok(v.nextBuffer))
    else if v.spilled.Some? then
      var s := v.spilled.value;
      if s.unread == [] then Polled(v, [], Ok(None))
      else Polled(v.(spilled := Some(s.(unread := s.unread[1..]))), [], Ok(Some(s.unread[0])))
    else Polled(v, [], Err(IllegalState("No in-memory buffers available, but also nothing spilled.")))
  }

  /** `releaseAllResources`: only the first call acts, and it releases the spilled view if any. */
  function ReleaseAllResources(v: View): (r: Step)
    ensures r.view.isReleased && Pending(r.view) == Pending(v)
    ensures v.isReleased ==> r == Step(v, [])
    ensures !v.isReleased ==> r.signals == if v.spilled.Some? then [SpilledReleased] else []
    ensures r.view.spilled.Some? <==> v.spilled.Some?
    ensures !v.isReleased && v.spilled.Some? ==> r.view.spilled.value.isReleased
    ensures Wf(v) ==> Wf(r.view)
  {
    if v.isReleased then Step(v, [])
    else if v.spilled.Some? then
      Step(v.(isReleased := true, spilled := Some(v.spilled.value.(isReleased := true))), [SpilledReleased])
    else Step(v.(isReleased := true), [])
  }

  /** `notifySubpartitionConsumed`: forwarded to the spilled view if any, else to the parent, every time. */
  function NotifySubpartitionConsumed(v: View): (r: Step)
    ensures r.view == v
    ensures r.signals == [if v.spilled.Some? then SpilledConsumed else ParentConsumed]
  {
    Step(v, [if v.spilled.Some? then SpilledConsumed else ParentConsumed])
  }

  datatype Call = GetNext | ReleaseMem | ReleaseAll | NotifyConsumed | NotifyAvailable(count: int)

  datatype Trace = Trace(view: View, signals: seq<Signal>, delivered: seq<Buffer>)

  /** One call. `notifyBuffersAvailable` does nothing: the view notifies one buffer at a time itself. */
  function Apply(v: View, c: Call, guarded: bool): (r: Trace)
    requires Wf(v)
    ensures Wf(r.view)
    ensures r.delivered + Pending(r.view) == Pending(v)
    ensures v.spilled.Some? ==> r.view.spilled.Some?
    ensures r.view.isReleased <==> v.isReleased || c.ReleaseAll?
    ensures Count(r.signals, SpilledReleased) == if c.ReleaseAll? && !v.isReleased && v.spilled.Some? then 1 else 0
  {
    match c
    case GetNext =>
      var p := GetNextBuffer(v);
      Trace(p.view, p.signals, if p.next.Ok? && p.next.value.Some? then [p.next.value.value] else [])
    case ReleaseMem =>
      var s := ReleaseMemoryIn(v, guarded);
      Trace(s.view, s.signals, [])
    case ReleaseAll =>
      var s := ReleaseAllResources(v);
      Trace(s.view, s.signals, [])
    case NotifyConsumed =>
      var s := NotifySubpartitionConsumed(v);
      Trace(s.view, s.signals, [])
    case NotifyAvailable(_) => Trace(v, [], [])
  }

  function Run(v: View, calls: seq<Call>, guarded: bool): (t: Trace)
    requires Wf(v)
    ensures Wf(t.view)
    decreases |calls|
  {
    if calls == [] then Trace(v, [], [])
    else
      var t := Run(v, calls[..|calls| - 1], guarded);
      var s := Apply(t.view, calls[|calls| - 1], guarded);
      Trace(s.view, t.signals + s.signals, t.delivered + s.delivered)
  }

  /**
    Whatever the interleaving of reads, memory releases and notices, the view hands out its
    buffers in their original order: what it delivered followed by what it still holds is
    what it held at the start, whether or not it spilled on the way.
   */
  lemma {:induction false} DeliversOriginalOrder(v: View, calls: seq<Call>, guarded: bool)
    requires Wf(v)
    ensures Run(v, calls, guarded).delivered + Pending(Run(v, calls, guarded).view) == Pending(v)
    decreases |calls|
  {
    if calls != [] {
      var t := Run(v, calls[..|calls| - 1], guarded);
      var s := Apply(t.view, calls[|calls| - 1], guarded);
      DeliversOriginalOrder(v, calls[..|calls| - 1], guarded);
      assert Run(v, calls, guarded).delivered == t.delivered + s.delivered;
      assert Run(v, calls, guarded).view == s.view;
      AppendAssociative(t.delivered, s.delivered, Pending(s.view));
    }
  }

  /** A view created over `queue` delivers exactly `queue`, in order, once it has nothing left. */
  lemma CreatedViewDeliversQueue(parentReleased: bool, queue: seq<Buffer>, calls: seq<Call>, guarded: bool)
    requires Pending(Run(Create(parentReleased, queue).view, calls, guarded).view) == []
    ensures Run(Create(parentReleased, queue).view, calls, guarded).delivered == queue
  {
    DeliversOriginalOrder(Create(parentReleased, queue).view, calls, guarded);
  }

  /** Spilling is one-way: once spilled, always spilled, and every later memory release frees nothing. */
  lemma {:induction false} SpillIsOneWay(v: View, calls: seq<Call>, guarded: bool)
    requires Wf(v) && v.spilled.Some?
    ensures Run(v, calls, guarded).view.spilled.Some?
    ensures ReleaseMemoryAsWritten(Run(v, calls, guarded).view).released == 0
    ensures ReleaseMemory(Run(v, calls, guarded).view).released == 0
    decreases |calls|
  {
    if calls != [] {
      SpillIsOneWay(v, calls[..|calls| - 1], guarded);
    }
  }

  /** Whether `calls` contains a `releaseAllResources`. */
  function ReleasesAll(calls: seq<Call>): bool
    decreases |calls|
  {
    calls != [] && (ReleasesAll(calls[..|calls| - 1]) || calls[|calls| - 1].ReleaseAll?)
  }

  /** The spilled view is released at most once, and only by the view's first release. */
  lemma {:induction false} SpilledReleasedAtMostOnce(v: View, calls: seq<Call>, guarded: bool)
    requires Wf(v)
    ensures Run(v, calls, guarded).view.isReleased <==> v.isReleased || ReleasesAll(calls)
    ensures Count(Run(v, calls, guarded).signals, SpilledReleased) + (if Run(v, calls, guarded).view.isReleased then 0 else 1)
      <= if v.isReleased then 0 else 1
    decreases |calls|
  {
    if calls != [] {
      var t := Run(v, calls[..|calls| - 1], guarded);
      var s := Apply(t.view, calls[|calls| - 1], guarded);
      SpilledReleasedAtMostOnce(v, calls[..|calls| - 1], guarded);
      CountAppend(t.signals, s.signals, SpilledReleased);
    }
  }

  /**
    As written, a memory release after the view was released revives it: the fresh spilled
    view is not released, and the view reports itself as live again. Two buffers in a view
    over a live parent show it.
   */
  lemma ReleaseMemoryAsWrittenRevivesView(b1: Buffer, b2: Buffer)
    ensures
      var v := ReleaseAllResources(Create(false, [b1, b2]).view).view;
      && IsReleased(v)
      && ReleaseMemoryAsWritten(v).released == 1
      && !IsReleased(ReleaseMemoryAsWritten(v).view)
  {
    var c := Create(false, [b1, b2]).view;
    assert c.nextBuffer == Some(b1) && c.buffers == [b2] && c.spilled.None?;
  }

  /** Leaving released views alone, a memory release never makes a released view live again. */
  lemma ReleaseMemoryKeepsReleased(v: View)
    requires IsReleased(v)
    ensures IsReleased(ReleaseMemory(v).view)
  {
  }

  /**
    Over whole runs: with the class's `releaseMemory`, releasing a view of two buffers and then
    reclaiming memory leaves a live, unreleased spilled view behind a released view; with the
    guarded release the same calls leave it released.
   */
  lemma AsWrittenRunRevivesView(b1: Buffer, b2: Buffer)
    ensures
      var v := Create(false, [b1, b2]).view;
      && !IsReleased(Run(v, [ReleaseAll, ReleaseMem], false).view)
      && Run(v, [ReleaseAll, ReleaseMem], false).view.spilled == Some(SpilledView([b2], false))
      && IsReleased(Run(v, [ReleaseAll, ReleaseMem], true).view)
  {
    var v := Create(false, [b1, b2]).view;
    assert [ReleaseAll, ReleaseMem][..1] == [ReleaseAll];
    assert [ReleaseAll][..0] == [];
    assert v.nextBuffer == Some(b1) && v.buffers == [b2] && v.spilled.None?;
  }

  /** With the guarded release, a released view stays released whatever the later calls. */
  lemma {:induction false} GuardedRunStaysReleased(v: View, calls: seq<Call>)
    requires Wf(v) && IsReleased(v)
    ensures IsReleased(Run(v, calls, true).view)
    decreases |calls|
  {
    if calls != [] {
      GuardedRunStaysReleased(v, calls[..|calls| - 1]);
    }
  }
}
