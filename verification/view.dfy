/**
 The part of rendering that depends on the controller: how the inner element
 is positioned, which edge it is anchored to, whether transitions are on,
 the class name it carries and the height reserved by the wrapper.
 */
module HeadroomView {
  import opened HeadroomState

  datatype Position = Relative | Fixed

  datatype Anchor = Top | Bottom

  datatype InnerStyle = InnerStyle(
    position: Position,
    anchor: Anchor,
    transform: Translate,
    transition: bool,
    className: string,
    wrapperHeight: Option<nat>)

  const ScrolledSuffix := " headroom--scrolled"

  /** Render: relative positioning when disabled or unfixed, fixed otherwise;
      a footer is anchored at the bottom, anything else at the top;
      transitions and the scrolled class only once the element has left the
      unfixed state (so the first slide out from unfixed does not animate);
      the wrapper reserves the measured height unless it is missing or 0. */
  function View(h: Headroom): (s: InnerStyle)
    ensures s.position == Relative <==> h.props.disable || h.view.state == Unfixed
    ensures s.anchor == Bottom <==> h.props.footer
    ensures s.transition <==> h.view.state != Unfixed
    ensures s.transform == h.view.translateY
    ensures |s.className| >= |h.view.className|
    ensures s.className[..|h.view.className|] == h.view.className
    ensures s.transition <==> s.className[|h.view.className|..] == ScrolledSuffix
    ensures !s.transition <==> s.className == h.view.className
    ensures s.wrapperHeight.Some? <==> h.view.height.Some? && h.view.height.value > 0
    ensures s.wrapperHeight.Some? ==> s.wrapperHeight == h.view.height
  {
    var position := if h.props.disable || h.view.state == Unfixed then Relative else Fixed;
    var anchor := if h.props.footer then Bottom else Top;
    var scrolled := h.view.state != Unfixed;
    var className := if scrolled then h.view.className + ScrolledSuffix else h.view.className;
    var wrapperHeight := if h.view.height.Some? && h.view.height.value != 0 then h.view.height else None;
    InnerStyle(position, anchor, h.view.translateY, scrolled, className, wrapperHeight)
  }

  /** Style follows state: for a consistent record that is not disabled the
      rendered style is fully determined by the pin label. */
  lemma StyleFollowsState(h: Headroom)
    requires Consistent(h.view) && !h.props.disable
    ensures h.view.state == Unfixed ==>
              View(h) == InnerStyle(Relative, View(h).anchor, Zero, false, ClassFor(Unfixed), View(h).wrapperHeight)
    ensures h.view.state == Pinned ==>
              View(h) == InnerStyle(Fixed, View(h).anchor, Zero, true, ClassFor(Pinned) + ScrolledSuffix, View(h).wrapperHeight)
    ensures h.view.state == Unpinned ==>
              && View(h).position == Fixed && View(h).transition
              && View(h).transform != Zero
              && View(h).className == ClassFor(Unpinned) + ScrolledSuffix
  {
  }

  /** The rendered class name of a consistent record names its pin label:
      two consistent records rendering the same class are in the same state. */
  lemma ClassNameNamesState(h1: Headroom, h2: Headroom)
    requires Consistent(h1.view) && Consistent(h2.view)
    requires View(h1).className == View(h2).className
    ensures h1.view.state == h2.view.state
  {
  }
}
