/**
 The record a Headroom component keeps: its props, the React state it renders
 from (`this.state`), the instance fields used for scroll bookkeeping, and the
 two deferred-work queues (animation frames and zero-delay timeouts) turned
 into explicit counters. Callback invocations are recorded as a trace.
 */
module HeadroomState {

  datatype Option<+T> = None | Some(value: T)

  /** The three pin labels; exactly one is held at a time. */
  datatype PinState = Pinned | Unpinned | Unfixed

  /** The value of `translateY`: the number 0, the string '-100%' (a header
      slid up out of view) or `${height}px` (a footer slid down by its
      measured height; an unmeasured height is `None`). */
  datatype Translate = Zero | FullUp | Down(height: Option<nat>)

  /** The three user callbacks, in the order they are fired. */
  datatype Callback = OnPin | OnUnpin | OnUnfix

  /** The props the controller reads. The tolerances and pinStart are only
      forwarded to the decision oracle. */
  datatype Props = Props(
    alwaysPinned: bool,
    disable: bool,
    downTolerance: int,
    footer: bool,
    pinStart: int,
    upTolerance: int)

  /** Default prop values of the component. */
  const DefaultProps := Props(false, false, 0, false, 0, 5)

  /** The React state: pin label, translation, class name and measured height
      (absent until the first measurement). */
  datatype ViewState = ViewState(
    state: PinState,
    translateY: Translate,
    className: string,
    height: Option<nat>)

  /** The whole component record. `pendingFrames` counts update callbacks
      queued on the animation-frame scheduler, `pendingSettles` counts queued
      zero-delay timeouts that finish an unpin. */
  datatype Headroom = Headroom(
    props: Props,
    view: ViewState,
    currentScrollY: int,
    lastKnownScrollY: int,
    ticking: bool,
    pendingFrames: nat,
    pendingSettles: nat,
    callbacks: seq<Callback>)

  const ClassPrefix := "headroom headroom--"

  function Label(s: PinState): string
  {
    match s
    case Pinned => "pinned"
    case Unpinned => "unpinned"
    case Unfixed => "unfixed"
  }

  /** The class name `headroom headroom--<label>` for a pin label. */
  function ClassFor(s: PinState): (c: string)
    ensures |c| > |ClassPrefix| && c[..|ClassPrefix|] == ClassPrefix
    ensures c[|ClassPrefix|..] == Label(s)
  {
    ClassPrefix + Label(s)
  }

  /** Distinct pin labels have distinct class names, so the class name
      names the state. */
  lemma ClassForInjective(a: PinState, b: PinState)
    ensures ClassFor(a) == ClassFor(b) <==> a == b
  {
    if ClassFor(a) == ClassFor(b) {
      assert Label(a) == ClassFor(a)[|ClassPrefix|..] == ClassFor(b)[|ClassPrefix|..] == Label(b);
    }
  }

  /** Style follows state: the class name carries the pin label and the
      translation is non-zero exactly when it is unpinned. */
  predicate Consistent(v: ViewState)
  {
    && v.className == ClassFor(v.state)
    && (v.translateY == Zero <==> v.state != Unpinned)
  }

  /** The weaker agreement that holds on every schedule: the class name is
      one of the three label classes, and the translation is non-zero
      exactly when the class says unpinned. Only the label itself may lag. */
  predicate StyleAgrees(v: ViewState)
  {
    && v.className in {ClassFor(Pinned), ClassFor(Unpinned), ClassFor(Unfixed)}
    && (v.translateY == Zero <==> v.className != ClassFor(Unpinned))
  }

  /** A consistent view agrees; an agreeing view whose class carries its own
      label is consistent. */
  lemma StyleAgreesWithLabel(v: ViewState)
    ensures Consistent(v) ==> StyleAgrees(v)
    ensures StyleAgrees(v) && v.className == ClassFor(v.state) ==> Consistent(v)
  {
    ClassForInjective(v.state, Unpinned);
  }

  /** The constructor: a footer starts pinned, anything else unfixed; no
      translation, no scroll seen yet, nothing scheduled, no callback fired. */
  function Init(props: Props): (h: Headroom)
    ensures props.footer <==> h.view.state == Pinned
    ensures h.view.state != Unpinned
    ensures Consistent(h.view)
    ensures h.view.translateY == Zero && h.view.height == None
    ensures h.props == props
    ensures h.currentScrollY == 0 && h.lastKnownScrollY == 0 && !h.ticking
    ensures h.pendingFrames == 0 && h.pendingSettles == 0 && h.callbacks == []
  {
    var initial := if props.footer then Pinned else Unfixed;
    Headroom(props, ViewState(initial, Zero, ClassFor(initial), None), 0, 0, false, 0, 0, [])
  }

  /** With the default props the component is a header that starts unfixed. */
  lemma DefaultIsUnfixedHeader()
    ensures !DefaultProps.footer && !DefaultProps.disable && DefaultProps.upTolerance == 5
    ensures Init(DefaultProps).view.state == Unfixed
    ensures Init(DefaultProps).view.className == "headroom headroom--unfixed"
  {
  }
}
