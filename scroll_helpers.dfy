/**
 * Geometry helpers of the scroll container
 * (packages/react-ui/components/ScrollContainer/ScrollContainer.helpers.ts).
 *
 * A DOM element is reduced to the integer layout properties the helpers read.
 */
module ScrollHelpers {
  import opened Wrappers

  datatype Axis = X | Y

  /** The integer layout properties of an element. */
  datatype Metrics = Metrics(
    offsetTop: int, offsetLeft: int,
    offsetWidth: nat, offsetHeight: nat,
    clientWidth: nat, clientHeight: nat,
    scrollTop: int, scrollLeft: int,
    scrollWidth: nat, scrollHeight: nat)

  /** The property names used for one axis. */
  datatype ParameterNames = ParameterNames(
    offset: string, size: string, pos: string, coord: string,
    clientSize: string, customScrollPos: string, customScrollSize: string)

  /** The set of all names one axis uses. */
  function NameSet(n: ParameterNames): set<string>
  {
    {n.offset, n.size, n.pos, n.coord, n.clientSize, n.customScrollPos, n.customScrollSize}
  }

  /** Reading an element property by name, as `inner[name]` does; None for names that are not element properties. */
  function ElementProperty(m: Metrics, name: string): Option<int>
  {
    match name
    case "offsetTop" => Some(m.offsetTop)
    case "offsetLeft" => Some(m.offsetLeft)
    case "offsetWidth" => Some(m.offsetWidth)
    case "offsetHeight" => Some(m.offsetHeight)
    case "clientWidth" => Some(m.clientWidth)
    case "clientHeight" => Some(m.clientHeight)
    case "scrollTop" => Some(m.scrollTop)
    case "scrollLeft" => Some(m.scrollLeft)
    case "scrollWidth" => Some(m.scrollWidth)
    case "scrollHeight" => Some(m.scrollHeight)
    case _ => None
  }

  /** `scrollSizeParametersNames[axis]`: the horizontal axis reads the width/left properties,
      the vertical axis the height/top properties. */
  function ScrollSizeParametersNames(axis: Axis): (r: ParameterNames)
    ensures forall m :: ElementProperty(m, r.pos) == Some(if axis == X then m.scrollLeft else m.scrollTop)
    ensures forall m :: ElementProperty(m, r.size) == Some(if axis == X then m.scrollWidth else m.scrollHeight)
    ensures forall m :: ElementProperty(m, r.offset) == Some(if axis == X then m.offsetWidth else m.offsetHeight)
    ensures forall m :: ElementProperty(m, r.clientSize) == Some(if axis == X then m.clientWidth else m.clientHeight)
    ensures ElementProperty(Metrics(0, 0, 0, 0, 0, 0, 0, 0, 0, 0), r.coord) == None
  {
    match axis
    case X => ParameterNames("offsetWidth", "scrollWidth", "scrollLeft", "clientX", "clientWidth", "left", "width")
    case Y => ParameterNames("offsetHeight", "scrollHeight", "scrollTop", "clientY", "clientHeight", "top", "height")
  }

  /** No property name is shared between the two axes. */
  lemma AxesShareNoName()
    ensures NameSet(ScrollSizeParametersNames(X)) !! NameSet(ScrollSizeParametersNames(Y))
  {
  }

  /** The part of `getScrollSizeParams` result the component relies on. */
  datatype ScrollSizeParams = ScrollSizeParams(scrollActive: bool, scrollSize: real, scrollPos: real)

  /** Position, size and container size of one axis. */
  function Pos(m: Metrics, axis: Axis): int { if axis == X then m.scrollLeft else m.scrollTop }
  function Size(m: Metrics, axis: Axis): nat { if axis == X then m.scrollWidth else m.scrollHeight }
  function Offset(m: Metrics, axis: Axis): nat { if axis == X then m.offsetWidth else m.offsetHeight }

  function Max(a: real, b: real): real { if a >= b then a else b }

  /**
   * `getScrollSizeParams(inner, axis)`: a scroll thumb is shown only when the content is larger
   * than the container; its size never drops below the minimum; with no scroll, size and position are zero.
   */
  function GetScrollSizeParams(inner: Metrics, axis: Axis, minScrollSize: real): (r: ScrollSizeParams)
    ensures r.scrollActive <==> Offset(inner, axis) < Size(inner, axis)
    ensures !r.scrollActive ==> r.scrollSize == 0.0 && r.scrollPos == 0.0
    ensures r.scrollActive ==> r.scrollSize >= minScrollSize
  {
    var names := ScrollSizeParametersNames(axis);
    var contentSize := ElementProperty(inner, names.size).value as real;
    var scrollOffset := ElementProperty(inner, names.pos).value as real;
    var containerSize := ElementProperty(inner, names.offset).value as real;
    var scrollActive := containerSize < contentSize;
    if scrollActive then
      var scrollSize := Max((containerSize / contentSize) * containerSize, minScrollSize);
      var scrollPos := (scrollOffset / (contentSize - containerSize)) * (containerSize - scrollSize);
      ScrollSizeParams(true, scrollSize, scrollPos)
    else
      ScrollSizeParams(false, 0.0, 0.0)
  }

  lemma MulNonNegBounds(t: real, w: real)
    requires 0.0 <= t <= 1.0 && 0.0 <= w
    ensures 0.0 <= t * w <= w
  {
    assert w - t * w == (1.0 - t) * w;
  }

  lemma DivBounds(a: real, b: real)
    requires 0.0 <= a <= b && 0.0 < b
    ensures 0.0 <= a / b <= 1.0
  {
    assert (a / b) * b == a;
  }

  /**
   * While the scroll position is inside its range and the minimum thumb size fits the container,
   * the thumb lies inside the track: 0 <= scrollPos <= containerSize - scrollSize.
   */
  lemma {:induction false} ScrollThumbInsideTrack(inner: Metrics, axis: Axis, minScrollSize: real)
    requires Offset(inner, axis) < Size(inner, axis)
    requires 0 <= Pos(inner, axis) <= Size(inner, axis) - Offset(inner, axis)
    requires minScrollSize <= Offset(inner, axis) as real
    ensures var r := GetScrollSizeParams(inner, axis, minScrollSize);
      0.0 <= r.scrollSize <= Offset(inner, axis) as real &&
      0.0 <= r.scrollPos <= Offset(inner, axis) as real - r.scrollSize
  {
    ThumbFormulaBounds(Size(inner, axis) as real, Offset(inner, axis) as real, Pos(inner, axis) as real, minScrollSize);
  }

  /** The thumb arithmetic of `getScrollSizeParams` on plain numbers. */
  lemma ThumbFormulaBounds(content: real, container: real, offset: real, minScrollSize: real)
    requires 0.0 <= container < content
    requires 0.0 <= offset <= content - container
    requires minScrollSize <= container
    ensures var size := Max((container / content) * container, minScrollSize);
      0.0 <= size <= container &&
      0.0 <= (offset / (content - container)) * (container - size) <= container - size
  {
    DivBounds(container, content);
    MulNonNegBounds(container / content, container);
    var size := Max((container / content) * container, minScrollSize);
    DivBounds(offset, content - container);
    MulNonNegBounds(offset / (content - container), container - size);
  }

  /** The lower position at which the element's bottom edge meets the container's bottom edge. */
  function BottomAligned(element: Metrics, container: Metrics): int
  {
    element.offsetTop + element.scrollHeight - container.offsetHeight
  }

  /** Container scroll positions at which the element lies fully inside the viewport. */
  predicate FullyVisibleAt(element: Metrics, container: Metrics, t: int)
  {
    BottomAligned(element, container) <= t <= element.offsetTop
  }

  function Abs(x: int): nat { if x < 0 then -x else x }

  /**
   * `getScrollYOffset(element, container)`: the `scrollTop` that brings the element into view.
   * An element already shown causes no movement (and only then is the result the current position);
   * an element that fits is shown in full, by the smallest movement that does so.
   */
  function GetScrollYOffset(element: Metrics, container: Metrics): (r: int)
    ensures r == container.scrollTop <==> FullyVisibleAt(element, container, container.scrollTop)
    ensures element.scrollHeight <= container.offsetHeight ==> FullyVisibleAt(element, container, r)
    ensures element.scrollHeight <= container.offsetHeight ==>
      forall t :: FullyVisibleAt(element, container, t) ==>
        Abs(r - container.scrollTop) <= Abs(t - container.scrollTop)
  {
    var elementOffset := element.offsetTop;
    if container.scrollTop > elementOffset then
      elementOffset
    else
      var offset := elementOffset + element.scrollHeight - container.offsetHeight;
      if container.scrollTop < offset then offset else container.scrollTop
  }

  /** The three branches of `getScrollYOffset` in the order the source tests them. */
  lemma ScrollYOffsetCases(element: Metrics, container: Metrics)
    ensures container.scrollTop > element.offsetTop ==>
      GetScrollYOffset(element, container) == element.offsetTop
    ensures container.scrollTop <= element.offsetTop && container.scrollTop < BottomAligned(element, container) ==>
      GetScrollYOffset(element, container) == BottomAligned(element, container)
    ensures container.scrollTop <= element.offsetTop && container.scrollTop >= BottomAligned(element, container) ==>
      GetScrollYOffset(element, container) == container.scrollTop
  {
  }

  /** For an element that fits, scrolling to it a second time does not move again. */
  lemma ScrollYOffsetIdempotent(element: Metrics, container: Metrics)
    requires element.scrollHeight <= container.offsetHeight
    ensures var r := GetScrollYOffset(element, container);
      GetScrollYOffset(element, container.(scrollTop := r)) == r
  {
  }

  /** For an element taller than the viewport and scrolled past, repeated scrolling alternates
      between top alignment and bottom alignment. */
  lemma ScrollYOffsetAlternatesForTallElement(element: Metrics, container: Metrics)
    requires element.scrollHeight > container.offsetHeight
    requires container.scrollTop > element.offsetTop
    ensures var r1 := GetScrollYOffset(element, container);
      var r2 := GetScrollYOffset(element, container.(scrollTop := r1));
      r1 == element.offsetTop && r2 == BottomAligned(element, container) && r2 != r1
  {
  }

  /** The states a scroll bar reports, and the public states of the container. */
  datatype ScrollBarScrollState = Begin | Middle | End
  datatype ScrollXState = Left | XScroll | Right
  datatype ScrollYState = Top | YScroll | Bottom

  /** `convertScrollbarXScrollState`: begin, middle, end become left, scroll, right. */
  function ConvertScrollbarXScrollState(state: ScrollBarScrollState): (r: ScrollXState)
    ensures r == Left <==> state == Begin
    ensures r == XScroll <==> state == Middle
    ensures r == Right <==> state == End
  {
    match state
    case Begin => Left
    case End => Right
    case Middle => XScroll
  }

  /** `convertScrollbarYScrollState`: begin, middle, end become top, scroll, bottom. */
  function ConvertScrollbarYScrollState(state: ScrollBarScrollState): (r: ScrollYState)
    ensures r == Top <==> state == Begin
    ensures r == YScroll <==> state == Middle
    ensures r == Bottom <==> state == End
  {
    match state
    case Begin => Top
    case End => Bottom
    case Middle => YScroll
  }

  /** Reference inverses of the two conversions. */
  function ScrollbarStateOfX(s: ScrollXState): ScrollBarScrollState
  {
    match s
    case Left => Begin
    case XScroll => Middle
    case Right => End
  }

  function ScrollbarStateOfY(s: ScrollYState): ScrollBarScrollState
  {
    match s
    case Top => Begin
    case YScroll => Middle
    case Bottom => End
  }

  /** Both conversions are bijections: each is undone by its inverse, in both orders, hence injective. */
  lemma ConversionsAreBijections(a: ScrollBarScrollState, b: ScrollBarScrollState, x: ScrollXState, y: ScrollYState)
    ensures ScrollbarStateOfX(ConvertScrollbarXScrollState(a)) == a
    ensures ConvertScrollbarXScrollState(ScrollbarStateOfX(x)) == x
    ensures ScrollbarStateOfY(ConvertScrollbarYScrollState(a)) == a
    ensures ConvertScrollbarYScrollState(ScrollbarStateOfY(y)) == y
    ensures ConvertScrollbarXScrollState(a) == ConvertScrollbarXScrollState(b) ==> a == b
    ensures ConvertScrollbarYScrollState(a) == ConvertScrollbarYScrollState(b) ==> a == b
  {
  }
}
