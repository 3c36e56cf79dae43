/**
  The view a consumer holds over a pipelined, in-memory subpartition.

  It reads from its parent's queue, forwards availability counts to its listener unchanged,
  and on its first release tells the parent that the subpartition was consumed. The parent
  cannot be restarted, so release and consumption are one and the same event for this view.
 */
module PipelinedViews {
  import opened Outcomes
  import opened Buffers
  import Subpartitions

  datatype View = View(parent: Subpartitions.Subpartition, isReleased: bool)

  /** What the view passes on: to its listener, or to its parent. */
  datatype Signal = BuffersAvailable(count: int) | ParentConsumed

  function Create(parent: Subpartitions.Subpartition): (v: View)
    ensures v.parent == parent && !v.isReleased
  {
    View(parent, false)
  }

  datatype Polled = Polled(view: View, next: Option<Buffer>)

  /** `getNextBuffer`: the parent's poll, whatever the view's own state. */
  function GetNextBuffer(v: View): (r: Polled)
    ensures v.parent.queue == [] ==> r.next == None && r.view == v
    ensures v.parent.queue != [] ==> r.next == Some(v.parent.queue[0])
    ensures (if r.next.Some? then [r.next.value] else []) + r.view.parent.queue == v.parent.queue
    ensures r.view.isReleased == v.isReleased
  {
    var p := Subpartitions.Poll(v.parent);
    Polled(v.(parent := p.subpartition), p.next)
  }

  /** The view after a call and what it passed on. */
  datatype Step = Step(view: View, signals: seq<Signal>)

  /** `releaseAllResources`: the compare-and-set lets only the first call through. */
  function ReleaseAllResources(v: View): (r: Step)
    ensures r.view.isReleased && r.view.parent == v.parent
    ensures r.signals == if v.isReleased then [] else [ParentConsumed]
  {
    if v.isReleased then Step(v, [])
    else Step(v.(isReleased := true), [ParentConsumed])
  }

  /** `notifySubpartitionConsumed` is a release of the view. */
  function NotifySubpartitionConsumed(v: View): (r: Step)
    ensures r == ReleaseAllResources(v)
  {
    ReleaseAllResources(v)
  }

  datatype Call = GetNext | NotifyAvailable(count: int) | NotifyConsumed | ReleaseAll | ParentAdd(buffer: Buffer)

  /** One call on the view, or one append by the producer to the parent's queue. */
  function Apply(v: View, c: Call): (r: Step)
    ensures r.view.isReleased <==> v.isReleased || c.NotifyConsumed? || c.ReleaseAll?
    ensures c.NotifyAvailable? ==> r == Step(v, [BuffersAvailable(c.count)])
    ensures Count(r.signals, ParentConsumed) == if !v.isReleased && (c.NotifyConsumed? || c.ReleaseAll?) then 1 else 0
  {
    match c
    case GetNext => Step(GetNextBuffer(v).view, [])
    case NotifyAvailable(n) => Step(v, [BuffersAvailable(n)])
    case NotifyConsumed => NotifySubpartitionConsumed(v)
    case ReleaseAll => ReleaseAllResources(v)
    case ParentAdd(b) => Step(v.(parent := Subpartitions.Offer(v.parent, b, true)), [])
  }

  /** The view after `calls`, everything it passed on, and every buffer it returned, in order. */
  datatype Trace = Trace(view: View, signals: seq<Signal>, delivered: seq<Buffer>)

  function Run(v: View, calls: seq<Call>): Trace
    decreases |calls|
  {
    if calls == [] then Trace(v, [], [])
    else
      var t := Run(v, calls[..|calls| - 1]);
      var c := calls[|calls| - 1];
      var s := Apply(t.view, c);
      Trace(s.view, t.signals + s.signals, t.delivered + Got(t.view, c))
  }

  /** Whether `calls` contains a release or a consumption notice. */
  function Releases(calls: seq<Call>): bool
    decreases |calls|
  {
    calls != [] && (Releases(calls[..|calls| - 1]) || calls[|calls| - 1].NotifyConsumed? || calls[|calls| - 1].ReleaseAll?)
  }

  /** Buffers the producer appended during `calls`, in order. */
  function Appended(calls: seq<Call>): seq<Buffer>
    decreases |calls|
  {
    if calls == [] then []
    else Appended(calls[..|calls| - 1]) + (if calls[|calls| - 1].ParentAdd? then [calls[|calls| - 1].buffer] else [])
  }

  /**
    However the releases and consumption notices are mixed and repeated, the parent hears of
    consumption exactly once if any of them happened on a live view, and the view stays
    released from the first of them on.
   */
  lemma {:induction false} ConsumedReportedOnce(v: View, calls: seq<Call>)
    ensures Run(v, calls).view.isReleased <==> v.isReleased || Releases(calls)
    ensures Count(Run(v, calls).signals, ParentConsumed) == if !v.isReleased && Releases(calls) then 1 else 0
    decreases |calls|
  {
    if calls != [] {
      var init := calls[..|calls| - 1];
      var t := Run(v, init);
      var s := Apply(t.view, calls[|calls| - 1]);
      ConsumedReportedOnce(v, init);
      assert Run(v, calls).signals == t.signals + s.signals;
      CountAppend(t.signals, s.signals, ParentConsumed);
    }
  }

  /**
    The view hands out the parent's buffers in FIFO order: what it returned followed by what
    is still queued is what was queued at the start followed by what the producer appended.
   */
  lemma {:induction false} DeliversInOrder(v: View, calls: seq<Call>)
    ensures Run(v, calls).delivered + Run(v, calls).view.parent.queue == v.parent.queue + Appended(calls)
    decreases |calls|
  {
    if calls != [] {
      var init := calls[..|calls| - 1];
      var t := Run(v, init);
      DeliversInOrder(v, init);
      var c := calls[|calls| - 1];
      var s := Apply(t.view, c);
      var got := Got(t.view, c);
      var added := if c.ParentAdd? then [c.buffer] else [];
      StepKeepsOrder(t.view, c);
      assert Run(v, calls).delivered == t.delivered + got;
      assert Run(v, calls).view == s.view;
      assert Appended(calls) == Appended(init) + added;
      AppendAssociative(t.delivered, got, s.view.parent.queue);
      AppendAssociative(t.delivered, t.view.parent.queue, added);
      AppendAssociative(v.parent.queue, Appended(init), added);
    }
  }

  /** The buffer a call returns, if any. */
  function Got(v: View, c: Call): seq<Buffer> {
    var next := if c.GetNext? then GetNextBuffer(v).next else None;
    if next.Some? then [next.value] else []
  }

  /** One call moves the parent's head to the delivered buffers or appends to its queue. */
  lemma StepKeepsOrder(v: View, c: Call)
    ensures Got(v, c) + Apply(v, c).view.parent.queue == v.parent.queue + (if c.ParentAdd? then [c.buffer] else [])
  {
    if !c.GetNext? && !c.ParentAdd? {
      assert v.parent.queue + [] == v.parent.queue;
    }
  }

}
