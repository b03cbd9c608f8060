/**
 * Behaviour of the scroll container component
 * (packages/react-ui/components/ScrollContainer/ScrollContainer.tsx): programmatic scrolling,
 * the wheel handler that keeps the page from scrolling at the edges, hover of the scroll bars,
 * routing of scroll-state callbacks, and registration of the wheel listener on the inner element.
 */
module ScrollContainerComponent {
  import opened ScrollHelpers

  /** A DOM element: its layout properties, and whether the container's wheel handler is registered on it. */
  class HtmlElement {
    var layout: Metrics
    var wheelListener: bool

    constructor (layout: Metrics)
      ensures this.layout == layout && !wheelListener
    {
      this.layout := layout;
      wheelListener := false;
    }
  }

  /** A scroll bar, reduced to its hover flag. */
  class ScrollBar {
    var hover: bool

    constructor ()
      ensures !hover
    {
      hover := false;
    }

    method SetHover(hover: bool)
      modifies this
      ensures this.hover == hover
    {
      this.hover := hover;
    }
  }

  /** A wheel event as the handler sees it. */
  datatype WheelEvent = WheelEvent(isWheelEvent: bool, shiftKey: bool, deltaY: real)

  /** A call of one of the optional scroll-state props. */
  datatype Notification =
    | ScrollXStateChange(x: ScrollXState)
    | ScrollStateChange(y: ScrollYState)   // the deprecated vertical callback
    | ScrollYStateChange(y: ScrollYState)

  /** Distance from the right or bottom edge up to which a scroll bar counts as hovered. */
  const HoverThreshold: real := 12.0

  /** The vertical bar is hovered near the right edge. */
  predicate YHover(right: real) { right <= HoverThreshold }

  /** The horizontal bar is hovered near the bottom edge, but not left of the vertical bar's zone. */
  predicate XHover(right: real, bottom: real) { right >= HoverThreshold && bottom <= HoverThreshold }

  /** Both bars are hovered together only exactly on the threshold, and there whenever the pointer is low enough. */
  lemma HoverZonesMeetOnlyAtThreshold(right: real, bottom: real)
    ensures YHover(right) && XHover(right, bottom) <==> right == HoverThreshold && bottom <= HoverThreshold
  {
  }

  /** The wheel decision on plain numbers: scrolling down at the end or up at the start is blocked. */
  predicate AtScrollEdge(size: int, pos: int, offset: int, deltaY: real)
  {
    (deltaY > 0.0 && size <= pos + offset) || (deltaY < 0.0 && pos <= 0)
  }

  class ScrollContainer {
    // props
    var preventWindowScroll: bool
    var hasOnScrollXStateChange: bool
    var hasOnScrollYStateChange: bool
    var hasOnScrollStateChange: bool
    // refs
    var scrollX: ScrollBar?
    var scrollY: ScrollBar?
    var inner: HtmlElement?

    /** The wheel handler is registered exactly when there is an inner element and the prop asks for it. */
    predicate ListenerInvariant()
      reads this, inner
    {
      inner != null ==> inner.wheelListener == preventWindowScroll
    }

    constructor (preventWindowScroll: bool, onX: bool, onY: bool, onState: bool)
      ensures this.preventWindowScroll == preventWindowScroll
      ensures hasOnScrollXStateChange == onX && hasOnScrollYStateChange == onY && hasOnScrollStateChange == onState
      ensures scrollX == null && scrollY == null && inner == null
      ensures ListenerInvariant()
    {
      this.preventWindowScroll := preventWindowScroll;
      hasOnScrollXStateChange, hasOnScrollYStateChange, hasOnScrollStateChange := onX, onY, onState;
      scrollX, scrollY, inner := null, null, null;
    }

    /** `scrollTo(element)`: aligns the inner element's scroll position so that `element` is shown. */
    method ScrollTo(element: HtmlElement?)
      modifies inner
      ensures element == null || inner == null ==> inner == null || unchanged(inner)
      ensures element != null && inner != null ==>
        inner.layout == old(inner.layout).(
          scrollLeft := old(element.layout.offsetLeft),
          scrollTop := GetScrollYOffset(old(element.layout), old(inner.layout)))
      ensures element != null && inner != null && element.layout.scrollHeight <= inner.layout.offsetHeight ==>
        FullyVisibleAt(element.layout, inner.layout, inner.layout.scrollTop)
      ensures inner != null ==> inner.wheelListener == old(inner.wheelListener)
    {
      if element == null || inner == null {
        return;
      }
      ghost var e0, i0 := element.layout, inner.layout;
      inner.layout := inner.layout.(scrollLeft := element.layout.offsetLeft);
      assert element.layout.offsetTop == e0.offsetTop && element.layout.scrollHeight == e0.scrollHeight;
      inner.layout := inner.layout.(scrollTop := GetScrollYOffset(element.layout, inner.layout));
    }

    /** `scrollToTop()`: only the vertical position is reset. */
    method ScrollToTop()
      modifies inner
      ensures inner != null ==> inner.layout == old(inner.layout).(scrollTop := 0)
      ensures inner != null ==> inner.wheelListener == old(inner.wheelListener)
    {
      if inner == null {
        return;
      }
      inner.layout := inner.layout.(scrollTop := 0);
    }

    /** `scrollToBottom()`: the vertical position puts the end of the content at the bottom edge. */
    method ScrollToBottom()
      modifies inner
      ensures inner != null ==>
        inner.layout == old(inner.layout).(scrollTop := old(inner.layout.scrollHeight) - old(inner.layout.offsetHeight))
      ensures inner != null ==> inner.wheelListener == old(inner.wheelListener)
    {
      if inner == null {
        return;
      }
      inner.layout := inner.layout.(scrollTop := inner.layout.scrollHeight - inner.layout.offsetHeight);
    }

    /** `scrollToLeft()`: only the horizontal position is reset. */
    method ScrollToLeft()
      modifies inner
      ensures inner != null ==> inner.layout == old(inner.layout).(scrollLeft := 0)
      ensures inner != null ==> inner.wheelListener == old(inner.wheelListener)
    {
      if inner == null {
        return;
      }
      inner.layout := inner.layout.(scrollLeft := 0);
    }

    /** `scrollToRight()`: the horizontal position puts the end of the content at the right edge. */
    method ScrollToRight()
      modifies inner
      ensures inner != null ==>
        inner.layout == old(inner.layout).(scrollLeft := old(inner.layout.scrollWidth) - old(inner.layout.offsetWidth))
      ensures inner != null ==> inner.wheelListener == old(inner.wheelListener)
    {
      if inner == null {
        return;
      }
      inner.layout := inner.layout.(scrollLeft := inner.layout.scrollWidth - inner.layout.offsetWidth);
    }

    /** `hasScrollBar(axis)`: the axis scrolls exactly when the helpers report its scroll as active. */
    predicate HasScrollBar(axis: Axis)
      reads this, inner
      ensures HasScrollBar(axis) ==> inner != null
      ensures inner != null ==> forall minScrollSize :: HasScrollBar(axis) == GetScrollSizeParams(inner.layout, axis, minScrollSize).scrollActive
    {
      if inner == null then false
      else if axis == X then inner.layout.offsetWidth < inner.layout.scrollWidth
      else inner.layout.offsetHeight < inner.layout.scrollHeight
    }

    /**
     * `handleInnerScrollAxisWheel(event, axis)`: whether the default of the wheel event is prevented.
     * The horizontal axis is considered only with shift held; both axes test the vertical delta.
     */
    method HandleInnerScrollAxisWheel(event: WheelEvent, axis: Axis) returns (preventDefault: bool)
      ensures preventDefault <==>
        inner != null && event.isWheelEvent && (axis == Y || event.shiftKey) && HasScrollBar(axis) &&
        AtScrollEdge(Size(inner.layout, axis), Pos(inner.layout, axis), Offset(inner.layout, axis), event.deltaY)
      ensures axis == X && !event.shiftKey ==> !preventDefault
    {
      preventDefault := false;
      if inner == null || !event.isWheelEvent || (axis == X && !event.shiftKey) {
        return;
      }
      if HasScrollBar(axis) {
        var names := ScrollSizeParametersNames(axis);
        var size := ElementProperty(inner.layout, names.size).value;
        var pos := ElementProperty(inner.layout, names.pos).value;
        var offset := ElementProperty(inner.layout, names.offset).value;
        if event.deltaY > 0.0 && size <= pos + offset {
          preventDefault := true;
          return;
        }
        if event.deltaY < 0.0 && pos <= 0 {
          preventDefault := true;
          return;
        }
      }
    }

    /** `handleInnerScrollWheel(event)`: the vertical axis is handled first, then the horizontal one. */
    method HandleInnerScrollWheel(event: WheelEvent) returns (preventDefault: bool)
      ensures preventDefault <==>
        inner != null && event.isWheelEvent &&
        ((HasScrollBar(Y) && AtScrollEdge(inner.layout.scrollHeight, inner.layout.scrollTop, inner.layout.offsetHeight, event.deltaY)) ||
         (event.shiftKey && HasScrollBar(X) && AtScrollEdge(inner.layout.scrollWidth, inner.layout.scrollLeft, inner.layout.offsetWidth, event.deltaY)))
    {
      var y := HandleInnerScrollAxisWheel(event, Y);
      var x := HandleInnerScrollAxisWheel(event, X);
      preventDefault := y || x;
    }

    /** `handleMouseMove`: sets the hover of each registered bar from the pointer's distance to the edges. */
    method HandleMouseMove(rectRight: real, rectBottom: real, pageX: real, pageY: real)
      modifies scrollX, scrollY
      ensures scrollX != null ==> scrollX.hover == XHover(rectRight - pageX, rectBottom - pageY)
      ensures scrollY != null && scrollY != scrollX ==> scrollY.hover == YHover(rectRight - pageX)
    {
      var right := rectRight - pageX;
      var bottom := rectBottom - pageY;
      if scrollY != null {
        scrollY.SetHover(right <= HoverThreshold);
      }
      if scrollX != null {
        scrollX.SetHover(right >= HoverThreshold && bottom <= HoverThreshold);
      }
    }

    /** `handleMouseLeave`: no bar stays hovered. */
    method HandleMouseLeave()
      modifies scrollX, scrollY
      ensures scrollX != null ==> !scrollX.hover
      ensures scrollY != null ==> !scrollY.hover
    {
      if scrollY != null {
        scrollY.SetHover(false);
      }
      if scrollX != null {
        scrollX.SetHover(false);
      }
    }

    /**
     * `handleScrollStateChange(state, axis)`: the callbacks fired, in order. Nothing fires before both
     * bars are registered; the horizontal axis fires only its own callback; the vertical axis fires the
     * deprecated callback and then its own, with the same converted state.
     */
    method HandleScrollStateChange(state: ScrollBarScrollState, axis: Axis) returns (fired: seq<Notification>)
      ensures scrollX == null || scrollY == null ==> fired == []
      ensures scrollX != null && scrollY != null && axis == X ==>
        fired == if hasOnScrollXStateChange then [ScrollXStateChange(ConvertScrollbarXScrollState(state))] else []
      ensures scrollX != null && scrollY != null && axis == Y ==>
        fired == (if hasOnScrollStateChange then [ScrollStateChange(ConvertScrollbarYScrollState(state))] else []) +
                 (if hasOnScrollYStateChange then [ScrollYStateChange(ConvertScrollbarYScrollState(state))] else [])
      ensures forall i :: 0 <= i < |fired| ==> (fired[i].ScrollXStateChange? <==> axis == X)
    {
      fired := [];
      if scrollY == null || scrollX == null {
        return;
      }
      if axis == X {
        var scrollXState := ConvertScrollbarXScrollState(state);
        if hasOnScrollXStateChange {
          fired := fired + [ScrollXStateChange(scrollXState)];
        }
        return;
      }
      var scrollYState := ConvertScrollbarYScrollState(state);
      if hasOnScrollStateChange {
        fired := fired + [ScrollStateChange(scrollYState)];
      }
      if hasOnScrollYStateChange {
        fired := fired + [ScrollYStateChange(scrollYState)];
      }
    }

    /** `refScrollBarY` and `refScrollBarX`: the framework hands over (or withdraws) a bar. */
    method RefScrollBarY(scrollbar: ScrollBar?)
      modifies this
      ensures scrollY == scrollbar && scrollX == old(scrollX) && inner == old(inner)
      ensures preventWindowScroll == old(preventWindowScroll)
      ensures hasOnScrollXStateChange == old(hasOnScrollXStateChange) &&
              hasOnScrollYStateChange == old(hasOnScrollYStateChange) &&
              hasOnScrollStateChange == old(hasOnScrollStateChange)
    {
      scrollY := scrollbar;
    }

    method RefScrollBarX(scrollbar: ScrollBar?)
      modifies this
      ensures scrollX == scrollbar && scrollY == old(scrollY) && inner == old(inner)
      ensures preventWindowScroll == old(preventWindowScroll)
      ensures hasOnScrollXStateChange == old(hasOnScrollXStateChange) &&
              hasOnScrollYStateChange == old(hasOnScrollYStateChange) &&
              hasOnScrollStateChange == old(hasOnScrollStateChange)
    {
      scrollX := scrollbar;
    }

    /**
     * `refInner(element)`: the handler is registered on an element that arrives while there was none
     * and the prop is set, and removed from the element that goes away. An element replaced directly by
     * another keeps its registration and the new one gets none.
     */
    method RefInner(element: HtmlElement?)
      modifies this, inner, element
      ensures inner == element
      ensures preventWindowScroll == old(preventWindowScroll) && scrollX == old(scrollX) && scrollY == old(scrollY)
      ensures hasOnScrollXStateChange == old(hasOnScrollXStateChange) &&
              hasOnScrollYStateChange == old(hasOnScrollYStateChange) &&
              hasOnScrollStateChange == old(hasOnScrollStateChange)
      ensures old(inner) == null && element != null ==>
        element.wheelListener == (old(element.wheelListener) || preventWindowScroll)
      ensures old(inner) != null && element == null ==> !old(inner).wheelListener
      ensures old(inner) != null && element != null ==>
        element.wheelListener == old(element.wheelListener) && old(inner).wheelListener == old(inner.wheelListener)
      ensures element != null ==> element.layout == old(element.layout)
      ensures old(inner) != null ==> old(inner).layout == old(inner.layout)
      ensures (old(ListenerInvariant()) && (old(inner) == null || element == null) &&
               (element != null ==> !old(element.wheelListener))) ==> ListenerInvariant()
    {
      if inner == null && element != null && preventWindowScroll {
        element.wheelListener := true;
      }
      if inner != null && element == null {
        inner.wheelListener := false;
      }
      inner := element;
    }

    /**
     * `componentDidUpdate(prevProps)`: with an inner element, the registration follows a flip of the prop
     * and is otherwise left as it is.
     */
    method ComponentDidUpdate(prevPreventWindowScroll: bool)
      modifies inner
      ensures inner != null ==> inner.layout == old(inner.layout)
      ensures inner != null && prevPreventWindowScroll && !preventWindowScroll ==> !inner.wheelListener
      ensures inner != null && !prevPreventWindowScroll && preventWindowScroll ==> inner.wheelListener
      ensures inner != null && prevPreventWindowScroll == preventWindowScroll ==> inner.wheelListener == old(inner.wheelListener)
      ensures (inner != null ==> old(inner.wheelListener) == prevPreventWindowScroll) ==> ListenerInvariant()
    {
      if inner != null {
        if prevPreventWindowScroll && !preventWindowScroll {
          inner.wheelListener := false;
        }
        if !prevPreventWindowScroll && preventWindowScroll {
          inner.wheelListener := true;
        }
      }
    }

    /** A re-render with a new `preventWindowScroll` prop, followed by `componentDidUpdate`. */
    method UpdatePreventWindowScroll(value: bool)
      modifies this, inner
      ensures preventWindowScroll == value && inner == old(inner)
      ensures scrollX == old(scrollX) && scrollY == old(scrollY)
      ensures hasOnScrollXStateChange == old(hasOnScrollXStateChange) &&
              hasOnScrollYStateChange == old(hasOnScrollYStateChange) &&
              hasOnScrollStateChange == old(hasOnScrollStateChange)
      ensures inner != null ==> inner.layout == old(inner.layout)
      ensures inner != null ==>
        inner.wheelListener == if old(preventWindowScroll) == value then old(inner.wheelListener) else value
      ensures old(ListenerInvariant()) ==> ListenerInvariant()
    {
      var prev := preventWindowScroll;
      preventWindowScroll := value;
      ComponentDidUpdate(prev);
    }
  }

  /**
   * A mount, a prop flip and an unmount: the element's registration after each step. It follows the
   * prop while mounted, and none is left behind.
   */
  method MountToggleUnmount(layout: Metrics, prevent: bool)
    returns (afterMount: bool, afterFlip: bool, afterUnmount: bool)
    ensures afterMount == prevent && afterFlip == !prevent && !afterUnmount
  {
    var c := new ScrollContainer(prevent, false, false, false);
    var e := new HtmlElement(layout);
    c.RefInner(e);
    afterMount := e.wheelListener;
    c.UpdatePreventWindowScroll(!prevent);
    afterFlip := e.wheelListener;
    c.RefInner(null);
    afterUnmount := e.wheelListener;
    assert c.ListenerInvariant();
  }
}
