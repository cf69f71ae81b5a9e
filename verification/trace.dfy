/**
 The component as a state machine over an explicit event stream: scroll
 events, animation frames firing with a DOM reading, zero-delay timeouts
 firing, new props and height measurements. The decision oracle is a
 parameter. Properties that hold over every run are proved here.
 */
module HeadroomTrace {
  import opened HeadroomState
  import opened HeadroomController

  datatype Event =
    | Scroll
    | Frame(reading: Reading)
    | Settle
    | Receive(next: Props)
    | Measure(offsetHeight: nat)

  /** The effect of one event on the record. */
  function Step(h: Headroom, decide: Oracle, e: Event): (r: Headroom)
    ensures |r.callbacks| <= |h.callbacks| + 1
    ensures h.callbacks <= r.callbacks
    ensures (e.Scroll? || e.Settle? || e.Measure?) ==> r.callbacks == h.callbacks
  {
    match e
    case Scroll => HandleScroll(h)
    case Frame(reading) => RunFrame(h, decide, reading)
    case Settle => SettleUnpin(h)
    case Receive(next) => ReceiveProps(h, next)
    case Measure(offsetHeight) => SetHeight(h, offsetHeight)
  }

  /** The record after a whole event stream. */
  function Run(h: Headroom, decide: Oracle, es: seq<Event>): (r: Headroom)
    ensures h.callbacks <= r.callbacks
    decreases |es|
  {
    if es == [] then h else Run(Step(h, decide, es[0]), decide, es[1..])
  }

  /** Running two streams one after the other is running their
      concatenation. */
  lemma {:induction false} RunAppend(h: Headroom, decide: Oracle, es1: seq<Event>, es2: seq<Event>)
    ensures Run(h, decide, es1 + es2) == Run(Run(h, decide, es1), decide, es2)
    decreases |es1|
  {
    if es1 != [] {
      assert (es1 + es2)[0] == es1[0];
      assert (es1 + es2)[1..] == es1[1..] + es2;
      RunAppend(Step(h, decide, es1[0]), decide, es1[1..], es2);
    } else {
      assert es1 + es2 == es2;
    }
  }

  /** Only one frame is pending at a time, and it is pending exactly while
      `ticking` is latched. */
  predicate SchedulerInv(h: Headroom)
  {
    h.pendingFrames == if h.ticking then 1 else 0
  }

  lemma StepKeepsSchedulerInv(h: Headroom, decide: Oracle, e: Event)
    requires SchedulerInv(h)
    ensures SchedulerInv(Step(h, decide, e))
  {
  }

  /** From construction on, at most one update is ever queued on the
      animation-frame scheduler, whatever the events and the oracle. */
  lemma {:induction false} RunKeepsSchedulerInv(h: Headroom, decide: Oracle, es: seq<Event>)
    requires SchedulerInv(h)
    ensures SchedulerInv(Run(h, decide, es))
    ensures Run(h, decide, es).pendingFrames <= 1
    decreases |es|
  {
    if es != [] {
      StepKeepsSchedulerInv(h, decide, es[0]);
      RunKeepsSchedulerInv(Step(h, decide, es[0]), decide, es[1..]);
    }
  }

  lemma InitSchedulerInv(props: Props, decide: Oracle, es: seq<Event>)
    ensures Run(Init(props), decide, es).pendingFrames <= 1
  {
    RunKeepsSchedulerInv(Init(props), decide, es);
  }

  /** `n` scroll events in a row. */
  function Scrolls(n: nat): (es: seq<Event>)
    ensures |es| == n && forall i :: 0 <= i < n ==> es[i] == Scroll
  {
    if n == 0 then [] else [Scroll] + Scrolls(n - 1)
  }

  /** A burst of scroll events between two frames queues one update, just as
      a single scroll event does. */
  lemma {:induction false} ScrollsCoalesce(h: Headroom, decide: Oracle, n: nat)
    requires n >= 1
    ensures Run(h, decide, Scrolls(n)) == HandleScroll(h)
    decreases n
  {
    var es := Scrolls(n);
    assert es[1..] == Scrolls(n - 1);
    if n > 1 {
      ScrollsCoalesce(HandleScroll(h), decide, n - 1);
      assert HandleScroll(HandleScroll(h)) == HandleScroll(h);
    }
  }

  /** Once the queued update has run, a further frame firing before the next
      scroll event finds nothing to do. */
  lemma FrameAfterFrameIsInert(h: Headroom, decide: Oracle, first: Reading, second: Reading)
    requires SchedulerInv(h)
    ensures var r := RunFrame(h, decide, first);
            RunFrame(r, decide, second) == r
  {
  }

  /** The events that can fire a callback: frames and prop changes. */
  function ActingEvents(es: seq<Event>): nat
    decreases |es|
  {
    if es == [] then 0
    else (if es[0].Frame? || es[0].Receive? then 1 else 0) + ActingEvents(es[1..])
  }

  /** Callbacks are only ever appended, and at most one per frame or prop
      change; scrolls, timeouts and measurements fire none. */
  lemma {:induction false} RunCallbacks(h: Headroom, decide: Oracle, es: seq<Event>)
    ensures |Run(h, decide, es).callbacks| <= |h.callbacks| + ActingEvents(es)
    ensures h.callbacks <= Run(h, decide, es).callbacks
    decreases |es|
  {
    if es != [] {
      var h' := Step(h, decide, es[0]);
      RunCallbacks(h', decide, es[1..]);
    }
  }

  /** What the rendered record looks like: with no unpin timeout queued the
      style follows the state; while one is queued (at most one) the element
      already shows as unpinned and slid away. */
  predicate DisplayInv(h: Headroom)
  {
    && h.pendingSettles <= 1
    && (h.pendingSettles == 0 ==> Consistent(h.view))
    && (h.pendingSettles == 1 ==> h.view.className == ClassFor(Unpinned) && h.view.translateY != Zero)
  }

  /** A prompt schedule lets a queued unpin timeout fire before the next
      frame runs or new props arrive. */
  predicate Prompt(h: Headroom, e: Event)
  {
    h.pendingSettles > 0 ==> e.Scroll? || e.Settle? || e.Measure?
  }

  predicate PromptRun(h: Headroom, decide: Oracle, es: seq<Event>)
    decreases |es|
  {
    es == [] || (Prompt(h, es[0]) && PromptRun(Step(h, decide, es[0]), decide, es[1..]))
  }

  lemma StepKeepsDisplayInv(h: Headroom, decide: Oracle, e: Event)
    requires DisplayInv(h) && Prompt(h, e)
    ensures DisplayInv(Step(h, decide, e))
  {
    if e.Frame? && h.pendingFrames > 0 {
      var h0 := h.(pendingFrames := h.pendingFrames - 1);
      var y := e.reading.scrollY;
      if !IsOutOfBound(y, e.reading.scrollerPhysicalHeight, e.reading.scrollerHeight) {
        var a := decide(h0.lastKnownScrollY, y, h0.props, h0.view);
        assert Step(h, decide, e).view == Dispatch(h0, a).view;
      }
    }
  }

  /** On a prompt schedule the display invariant holds after every event:
      from construction on, whenever no unpin is in flight the class name,
      translation and pin label agree. */
  lemma {:induction false} RunKeepsDisplayInv(h: Headroom, decide: Oracle, es: seq<Event>)
    requires DisplayInv(h) && PromptRun(h, decide, es)
    ensures DisplayInv(Run(h, decide, es))
    decreases |es|
  {
    if es != [] {
      StepKeepsDisplayInv(h, decide, es[0]);
      RunKeepsDisplayInv(Step(h, decide, es[0]), decide, es[1..]);
    }
  }

  lemma InitDisplayInv(props: Props)
    ensures DisplayInv(Init(props))
  {
  }

  lemma StepKeepsStyleAgrees(h: Headroom, decide: Oracle, e: Event)
    requires StyleAgrees(h.view)
    ensures StyleAgrees(Step(h, decide, e).view)
  {
    if e.Frame? && h.pendingFrames > 0 {
      var h0 := h.(pendingFrames := h.pendingFrames - 1);
      var y := e.reading.scrollY;
      if !IsOutOfBound(y, e.reading.scrollerPhysicalHeight, e.reading.scrollerHeight) {
        var a := decide(h0.lastKnownScrollY, y, h0.props, h0.view);
        assert Step(h, decide, e).view == Dispatch(h0, a).view;
      }
    }
  }

  /** On every schedule, prompt or not, the class name is a label class and
      the translation is non-zero exactly when that class is the unpinned
      one: whatever else drifts, the rendered style never contradicts itself. */
  lemma {:induction false} RunKeepsStyleAgrees(h: Headroom, decide: Oracle, es: seq<Event>)
    requires StyleAgrees(h.view)
    ensures StyleAgrees(Run(h, decide, es).view)
    decreases |es|
  {
    if es != [] {
      StepKeepsStyleAgrees(h, decide, es[0]);
      RunKeepsStyleAgrees(Step(h, decide, es[0]), decide, es[1..]);
    }
  }

  lemma InitStyleAgrees(props: Props, decide: Oracle, es: seq<Event>)
    ensures StyleAgrees(Run(Init(props), decide, es).view)
  {
    StyleAgreesWithLabel(Init(props).view);
    RunKeepsStyleAgrees(Init(props), decide, es);
  }

  /** Without the prompt assumption the display can disagree with the state:
      if a pin runs while an unpin's timeout is still queued, the timeout
      later marks the element unpinned although it shows pinned, untranslated. */
  lemma PinBeforeSettleDesyncs(h: Headroom)
    requires h.pendingSettles == 0
    ensures var r := SettleUnpin(Pin(Unpin(h)));
            && r.pendingSettles == 0
            && r.view.state == Unpinned
            && r.view.className == ClassFor(Pinned)
            && r.view.translateY == Zero
            && !Consistent(r.view)
            && StyleAgrees(r.view)
  {
    ClassForInjective(Pinned, Unpinned);
  }
}
