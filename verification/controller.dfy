/**
 The scroll controller of the Headroom component: the bound check, the
 scroll handler that latches `ticking`, the three state transformers (with
 unpin's deferred second half), the per-frame update that consults the
 decision oracle, the disable toggle and the height measurement.
 */
module HeadroomController {
  import opened HeadroomState

  /** One DOM reading taken when a frame runs: the scroll offset of the
      parent, its visible (physical) height and its full scrollable height. */
  datatype Reading = Reading(scrollY: int, scrollerPhysicalHeight: nat, scrollerHeight: nat)

  /** What the decision oracle can answer. Any answer other than the three
      actions is `NoAction`. */
  datatype Action = PinAction | UnpinAction | UnfixAction | NoAction

  /** The pin/unpin/unfix decision, whose rules are not part of this model:
      it sees the last known offset, the current offset, the props and the
      React state. */
  type Oracle = (int, int, Props, ViewState) -> Action

  /** A position is out of bound when it is above the top, or when the visible
      window would reach past the end of the scrollable content. */
  function IsOutOfBound(scrollY: int, physicalHeight: int, scrollerHeight: int): (out: bool)
    ensures !out <==> 0 <= scrollY <= scrollerHeight - physicalHeight
    ensures scrollY == 0 ==> (!out <==> physicalHeight <= scrollerHeight)
    ensures physicalHeight > scrollerHeight ==> out
  {
    var pastTop := scrollY < 0;
    var pastBottom := scrollY + physicalHeight > scrollerHeight;
    pastTop || pastBottom
  }

  /** A scroll event schedules an update unless one is already pending. */
  function HandleScroll(h: Headroom): (r: Headroom)
    ensures h.ticking ==> r == h
    ensures !h.ticking ==> r.ticking && r.pendingFrames == h.pendingFrames + 1
    ensures r == h.(ticking := r.ticking, pendingFrames := r.pendingFrames)
    ensures r.ticking
  {
    if !h.ticking then h.(ticking := true, pendingFrames := h.pendingFrames + 1) else h
  }

  /** Show the element: fires onPin and moves to the pinned label. */
  function Pin(h: Headroom): (r: Headroom)
    ensures r.view.state == Pinned && Consistent(r.view)
    ensures r.view.height == h.view.height
    ensures r.callbacks == h.callbacks + [OnPin]
    ensures r == h.(view := r.view, callbacks := r.callbacks)
  {
    h.(view := h.view.(translateY := Zero, className := ClassFor(Pinned), state := Pinned),
       callbacks := h.callbacks + [OnPin])
  }

  /** Return the element to normal flow: fires onUnfix and moves to the
      unfixed label. */
  function Unfix(h: Headroom): (r: Headroom)
    ensures r.view.state == Unfixed && Consistent(r.view)
    ensures r.view.height == h.view.height
    ensures r.callbacks == h.callbacks + [OnUnfix]
    ensures r == h.(view := r.view, callbacks := r.callbacks)
  {
    h.(view := h.view.(translateY := Zero, className := ClassFor(Unfixed), state := Unfixed),
       callbacks := h.callbacks + [OnUnfix])
  }

  /** First half of hiding the element: fires onUnpin, slides it out and
      shows the unpinned class at once, but leaves the pin label alone and
      queues a timeout that will set it. */
  function Unpin(h: Headroom): (r: Headroom)
    ensures r.view.state == h.view.state
    ensures r.view.className == ClassFor(Unpinned)
    ensures r.view.translateY != Zero
    ensures h.props.footer ==> r.view.translateY == Down(h.view.height)
    ensures !h.props.footer ==> r.view.translateY == FullUp
    ensures r.view.height == h.view.height
    ensures r.callbacks == h.callbacks + [OnUnpin]
    ensures r.pendingSettles == h.pendingSettles + 1
    ensures r == h.(view := r.view, callbacks := r.callbacks, pendingSettles := r.pendingSettles)
  {
    var translateY := if h.props.footer then Down(h.view.height) else FullUp;
    h.(view := h.view.(translateY := translateY, className := ClassFor(Unpinned)),
       callbacks := h.callbacks + [OnUnpin],
       pendingSettles := h.pendingSettles + 1)
  }

  /** Second half of an unpin: one queued timeout fires and sets the pin
      label to unpinned. With nothing queued nothing happens. */
  function SettleUnpin(h: Headroom): (r: Headroom)
    ensures h.pendingSettles == 0 ==> r == h
    ensures h.pendingSettles > 0 ==>
              && r.view == h.view.(state := Unpinned)
              && r.pendingSettles == h.pendingSettles - 1
    ensures r == h.(view := r.view, pendingSettles := r.pendingSettles)
    ensures r.callbacks == h.callbacks
  {
    if h.pendingSettles == 0 then h
    else h.(view := h.view.(state := Unpinned), pendingSettles := h.pendingSettles - 1)
  }

  /** Unpin followed by its timeout, starting with nothing queued, ends in a
      consistent unpinned display with one onUnpin fired. */
  lemma UnpinThenSettle(h: Headroom)
    requires h.pendingSettles == 0
    ensures var r := SettleUnpin(Unpin(h));
            && r.view.state == Unpinned
            && Consistent(r.view)
            && r.pendingSettles == 0
            && r.callbacks == h.callbacks + [OnUnpin]
  {
  }

  /** The callback an action fires. */
  function CallbackFor(a: Action): seq<Callback>
  {
    match a
    case PinAction => [OnPin]
    case UnpinAction => [OnUnpin]
    case UnfixAction => [OnUnfix]
    case NoAction => []
  }

  /** Perform the oracle's answer: each action fires exactly its own callback
      once; anything else changes nothing. */
  function Dispatch(h: Headroom, a: Action): (r: Headroom)
    ensures a == NoAction ==> r == h
    ensures r.callbacks == h.callbacks + CallbackFor(a)
    ensures |r.callbacks| == |h.callbacks| + (if a == NoAction then 0 else 1)
    ensures a.PinAction? ==> r.view.state == Pinned && Consistent(r.view)
    ensures a.UnfixAction? ==> r.view.state == Unfixed && Consistent(r.view)
    ensures a.UnpinAction? ==> r.view.state == h.view.state && r.view.className == ClassFor(Unpinned)
    ensures a.UnpinAction? ==> r.view.translateY == (if h.props.footer then Down(h.view.height) else FullUp)
    ensures a.PinAction? ==> r == Pin(h)
    ensures a.UnpinAction? ==> r == Unpin(h)
    ensures a.UnfixAction? ==> r == Unfix(h)
    ensures r.pendingSettles == h.pendingSettles + (if a.UnpinAction? then 1 else 0)
    ensures r.props == h.props && r.view.height == h.view.height
    ensures r.currentScrollY == h.currentScrollY && r.lastKnownScrollY == h.lastKnownScrollY
    ensures r.ticking == h.ticking && r.pendingFrames == h.pendingFrames
  {
    match a
    case PinAction => Pin(h)
    case UnpinAction => Unpin(h)
    case UnfixAction => Unfix(h)
    case NoAction => h
  }

  /** One frame's update: read the offset; when in bound ask the oracle with
      the previous offset and perform its answer; in every case record the
      offset as the last known one and release `ticking`. */
  function Update(h: Headroom, decide: Oracle, reading: Reading): (r: Headroom)
    ensures r.currentScrollY == reading.scrollY && r.lastKnownScrollY == reading.scrollY
    ensures !r.ticking
    ensures r.props == h.props && r.pendingFrames == h.pendingFrames
    ensures r.view.height == h.view.height
    ensures IsOutOfBound(reading.scrollY, reading.scrollerPhysicalHeight, reading.scrollerHeight) ==>
              && r.view == h.view
              && r.callbacks == h.callbacks
              && r.pendingSettles == h.pendingSettles
    ensures !IsOutOfBound(reading.scrollY, reading.scrollerPhysicalHeight, reading.scrollerHeight) ==>
              var a := decide(h.lastKnownScrollY, reading.scrollY, h.props, h.view);
              && r.view == Dispatch(h, a).view
              && r.callbacks == h.callbacks + CallbackFor(a)
              && r.pendingSettles == Dispatch(h, a).pendingSettles
  {
    var y := reading.scrollY;
    var acted :=
      if !IsOutOfBound(y, reading.scrollerPhysicalHeight, reading.scrollerHeight) then
        Dispatch(h, decide(h.lastKnownScrollY, y, h.props, h.view))
      else h;
    acted.(currentScrollY := y, lastKnownScrollY := y, ticking := false)
  }

  /** The animation-frame scheduler runs one queued update; with nothing
      queued nothing happens. */
  function RunFrame(h: Headroom, decide: Oracle, reading: Reading): (r: Headroom)
    ensures h.pendingFrames == 0 ==> r == h
    ensures h.pendingFrames > 0 ==>
              && r.pendingFrames == h.pendingFrames - 1
              && !r.ticking
              && r.currentScrollY == reading.scrollY && r.lastKnownScrollY == reading.scrollY
    ensures h.pendingFrames > 0 ==> r == Update(h.(pendingFrames := h.pendingFrames - 1), decide, reading)
    ensures r.props == h.props && r.view.height == h.view.height
  {
    if h.pendingFrames == 0 then h
    else Update(h.(pendingFrames := h.pendingFrames - 1), decide, reading)
  }

  /** New props arrive: switching `disable` on unfixes the element; every
      other change only replaces the props. */
  function ReceiveProps(h: Headroom, next: Props): (r: Headroom)
    ensures r.props == next
    ensures next.disable && !h.props.disable ==>
              && r.view.state == Unfixed
              && Consistent(r.view)
              && r.callbacks == h.callbacks + [OnUnfix]
    ensures !(next.disable && !h.props.disable) ==> r == h.(props := next)
    ensures r.view.height == h.view.height && r.pendingSettles == h.pendingSettles
    ensures r.currentScrollY == h.currentScrollY && r.lastKnownScrollY == h.lastKnownScrollY
    ensures r.ticking == h.ticking && r.pendingFrames == h.pendingFrames
  {
    var acted := if next.disable && !h.props.disable then Unfix(h) else h;
    acted.(props := next)
  }

  /** The element's height is measured (on mount and when its children
      change); only the stored height changes. */
  function SetHeight(h: Headroom, offsetHeight: nat): (r: Headroom)
    ensures r.view.height == Some(offsetHeight)
    ensures r == h.(view := h.view.(height := Some(offsetHeight)))
  {
    h.(view := h.view.(height := Some(offsetHeight)))
  }
}
