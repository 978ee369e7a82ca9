/**
 * Placement geometry of the timeline's speech-bubble popup
 * (Timeline.Graphics.createBubbleForPoint).
 *
 * Given the page point the bubble must point at, the size of its content box,
 * an optional orientation hint and the size of the viewport, the bubble is put
 * above, below, left of or right of the point, tried in that order, with the
 * right-hand side as the last resort. The DOM writes of the source
 * (div.style.left, div.style.top, the arrow's style.left or style.top) become
 * the fields of a Placement value.
 */
module Bubble {
  import opened Wrappers

  /** The numeric layout constants of Timeline.Graphics.bubbleConfig, in pixels. */
  datatype Config = Config(
    borderGraphicSize: nat,
    arrowGraphicTargetOffset: nat,  // from the arrow's tip to the edge of the content box
    arrowGraphicLength: nat,        // along the direction the arrow points
    arrowGraphicWidth: nat,         // perpendicular to the direction the arrow points
    extraPadding: nat)

  /** The values the library ships with. */
  const BubbleConfig: Config := Config(50, 33, 100, 49, 20)

  /** Inner size of the browser window. */
  datatype Viewport = Viewport(w: int, h: int)

  /**
   * The direction the arrow graphic points (the "point-<dir>" class suffix):
   * Down means the bubble sits above the target, Up below it, Right to its
   * left and Left to its right.
   */
  datatype Arrow = Up | Down | Left | Right

  /**
   * Where the content box goes (left, top) and where the arrow sits along the
   * edge it exits from (its style.left for Up/Down, its style.top for Left/Right).
   */
  datatype Placement = Placement(arrow: Arrow, left: int, top: int, arrowOffset: int)

  /** The bubble as rendered: content box size, outer size with borders, placement. */
  datatype Bubble = Bubble(
    contentWidth: int,
    contentHeight: int,
    outerWidth: int,
    outerHeight: int,
    placement: Placement)

  /**
   * Half of an integer, rounded up. This is Math.ceil(n / 2), and also
   * Math.round(n / 2), since Math.round rounds halves upward.
   */
  function CeilHalf(n: int): (r: int)
    ensures n <= 2 * r <= n + 1
  {
    (n + 1) / 2
  }

  function HalfArrowWidth(c: Config): int {
    CeilHalf(c.arrowGraphicWidth)
  }

  /** JavaScript truthiness of the orientation argument: undefined, null and "" are false. */
  predicate Truthy(orientation: Option<string>) {
    orientation.Some? && orientation.value != ""
  }

  /** The arrow, with border and padding, fits strictly inside (0, w) around pageX. */
  predicate HasHorizontalClearance(pageX: int, view: Viewport, c: Config) {
    var reach := HalfArrowWidth(c) + c.borderGraphicSize + c.extraPadding;
    pageX - reach > 0 && pageX + reach < view.w
  }

  /** "top" was asked for, or no orientation was given and there is room above. */
  predicate GoesAbove(pageY: int, contentHeight: int, orientation: Option<string>, c: Config) {
    orientation == Some("top") ||
    (!Truthy(orientation) &&
     pageY - c.arrowGraphicTargetOffset - contentHeight - c.borderGraphicSize - c.extraPadding > 0)
  }

  /** "bottom" was asked for, or no orientation was given and there is room below. */
  predicate GoesBelow(pageY: int, contentHeight: int, orientation: Option<string>, view: Viewport, c: Config) {
    orientation == Some("bottom") ||
    (!Truthy(orientation) &&
     pageY + c.arrowGraphicTargetOffset + contentHeight + c.borderGraphicSize + c.extraPadding < view.h)
  }

  /** "left" was asked for, or no orientation was given and there is room on the left. */
  predicate GoesLeft(pageX: int, contentWidth: int, orientation: Option<string>, c: Config) {
    orientation == Some("left") ||
    (!Truthy(orientation) &&
     pageX - c.arrowGraphicTargetOffset - contentWidth - c.borderGraphicSize - c.extraPadding > 0)
  }

  /**
   * The content box's offset on one axis: centred on the target coordinate p,
   * then pushed away from the edge of the half of the viewport p lies in, so
   * that the box keeps padding + border from that edge.
   */
  function CentreAndClamp(p: int, size: int, extent: int, c: Config): (r: int)
    ensures 2 * p < extent ==>
              r >= c.extraPadding + c.borderGraphicSize && r >= p - CeilHalf(size) &&
              (r == p - CeilHalf(size) || r == c.extraPadding + c.borderGraphicSize)
    ensures 2 * p >= extent ==>
              r + size <= extent - c.extraPadding - c.borderGraphicSize && r <= p - CeilHalf(size) &&
              (r == p - CeilHalf(size) || r + size == extent - c.extraPadding - c.borderGraphicSize)
  {
    var centred := p - CeilHalf(size);
    if 2 * p < extent then
      var least := c.extraPadding + c.borderGraphicSize;
      if centred < least then least else centred
    else
      var most := extent - c.extraPadding - c.borderGraphicSize - size;
      if centred > most then most else centred
  }

  /** The horizontal half of the decision tree: left of the target, else right of it. */
  function PlaceBeside(pageX: int, pageY: int, contentWidth: int, contentHeight: int,
                       orientation: Option<string>, view: Viewport, c: Config): Placement
  {
    var top := CentreAndClamp(pageY, contentHeight, view.h, c);
    if GoesLeft(pageX, contentWidth, orientation, c) then
      Placement(Right, pageX - c.arrowGraphicTargetOffset - contentWidth, top, pageY - HalfArrowWidth(c) - top)
    else
      Placement(Left, pageX + c.arrowGraphicTargetOffset, top, pageY - HalfArrowWidth(c) - top)
  }

  /**
   * The placement decision of createBubbleForPoint. Whatever branch is
   * taken, the arrow's centre lies on the target's coordinate along the edge
   * it exits from.
   */
  function Place(pageX: int, pageY: int, contentWidth: int, contentHeight: int,
                 orientation: Option<string>, view: Viewport, c: Config): (p: Placement)
    ensures (p.arrow == Up || p.arrow == Down) ==> p.left + p.arrowOffset + CeilHalf(c.arrowGraphicWidth) == pageX
    ensures (p.arrow == Left || p.arrow == Right) ==> p.top + p.arrowOffset + CeilHalf(c.arrowGraphicWidth) == pageY
  {
    if HasHorizontalClearance(pageX, view, c) then
      var left := CentreAndClamp(pageX, contentWidth, view.w, c);
      if GoesAbove(pageY, contentHeight, orientation, c) then
        Placement(Down, left, pageY - c.arrowGraphicTargetOffset - contentHeight, pageX - HalfArrowWidth(c) - left)
      else if GoesBelow(pageY, contentHeight, orientation, view, c) then
        Placement(Up, left, pageY + c.arrowGraphicTargetOffset, pageX - HalfArrowWidth(c) - left)
      else
        PlaceBeside(pageX, pageY, contentWidth, contentHeight, orientation, view, c)
    else
      PlaceBeside(pageX, pageY, contentWidth, contentHeight, orientation, view, c)
  }

  /**
   * createBubbleForPoint without its DOM plumbing: the content box keeps the
   * requested size, the outer frame adds a border graphic on every side, and
   * the box is placed by Place against the current viewport. When the outer
   * frame plus the padding on both sides fits the viewport on the axis the
   * bubble is centred on (x above or below the target, y beside it), the
   * outer frame lies on that axis at least the padding inside the viewport.
   */
  function CreateBubbleForPoint(pageX: int, pageY: int, contentWidth: int, contentHeight: int,
                                orientation: Option<string>, view: Viewport, c: Config): (b: Bubble)
    ensures b.contentWidth == contentWidth && b.contentHeight == contentHeight
    ensures b.outerWidth == c.borderGraphicSize + contentWidth + c.borderGraphicSize
    ensures b.outerHeight == c.borderGraphicSize + contentHeight + c.borderGraphicSize
    ensures b.placement == Place(pageX, pageY, contentWidth, contentHeight, orientation, view, c)
    ensures var p := b.placement; var frameLeft := p.left - c.borderGraphicSize;
      (p.arrow == Up || p.arrow == Down) && b.outerWidth + 2 * c.extraPadding <= view.w ==>
        c.extraPadding <= frameLeft && frameLeft + b.outerWidth <= view.w - c.extraPadding
    ensures var p := b.placement; var frameTop := p.top - c.borderGraphicSize;
      (p.arrow == Left || p.arrow == Right) && b.outerHeight + 2 * c.extraPadding <= view.h ==>
        c.extraPadding <= frameTop && frameTop + b.outerHeight <= view.h - c.extraPadding
  {
    FrameWithinViewport(pageX, pageY, contentWidth, contentHeight, orientation, view, c);
    Bubble(contentWidth, contentHeight,
           contentWidth + 2 * c.borderGraphicSize, contentHeight + 2 * c.borderGraphicSize,
           Place(pageX, pageY, contentWidth, contentHeight, orientation, view, c))
  }

  // ---------------------------------------------------------------------------
  // The four branches, each as an if-and-only-if with its geometry
  // ---------------------------------------------------------------------------

  /** The bubble goes above the target exactly when there is horizontal clearance and GoesAbove holds. */
  lemma PlacedAbove(pageX: int, pageY: int, w: int, h: int, o: Option<string>, view: Viewport, c: Config)
    ensures var p := Place(pageX, pageY, w, h, o, view, c);
      (p.arrow == Down <==> HasHorizontalClearance(pageX, view, c) && GoesAbove(pageY, h, o, c)) &&
      (p.arrow == Down ==>
         p.left == CentreAndClamp(pageX, w, view.w, c) &&
         p.top == pageY - c.arrowGraphicTargetOffset - h &&
         p.arrowOffset == pageX - CeilHalf(c.arrowGraphicWidth) - p.left)
  {
  }

  /** Below: clearance, not above, and GoesBelow. */
  lemma PlacedBelow(pageX: int, pageY: int, w: int, h: int, o: Option<string>, view: Viewport, c: Config)
    ensures var p := Place(pageX, pageY, w, h, o, view, c);
      (p.arrow == Up <==>
         HasHorizontalClearance(pageX, view, c) && !GoesAbove(pageY, h, o, c) && GoesBelow(pageY, h, o, view, c)) &&
      (p.arrow == Up ==>
         p.left == CentreAndClamp(pageX, w, view.w, c) &&
         p.top == pageY + c.arrowGraphicTargetOffset &&
         p.arrowOffset == pageX - CeilHalf(c.arrowGraphicWidth) - p.left)
  {
  }

  /** Left of the target: neither vertical branch applies, and GoesLeft. */
  lemma PlacedLeftOf(pageX: int, pageY: int, w: int, h: int, o: Option<string>, view: Viewport, c: Config)
    ensures var p := Place(pageX, pageY, w, h, o, view, c);
      var vertical := HasHorizontalClearance(pageX, view, c) &&
                      (GoesAbove(pageY, h, o, c) || GoesBelow(pageY, h, o, view, c));
      (p.arrow == Right <==> !vertical && GoesLeft(pageX, w, o, c)) &&
      (p.arrow == Right ==>
         p.top == CentreAndClamp(pageY, h, view.h, c) &&
         p.left == pageX - c.arrowGraphicTargetOffset - w &&
         p.arrowOffset == pageY - CeilHalf(c.arrowGraphicWidth) - p.top)
  {
  }

  /** Right of the target, the last resort: every other branch failed. */
  lemma PlacedRightOf(pageX: int, pageY: int, w: int, h: int, o: Option<string>, view: Viewport, c: Config)
    ensures var p := Place(pageX, pageY, w, h, o, view, c);
      var vertical := HasHorizontalClearance(pageX, view, c) &&
                      (GoesAbove(pageY, h, o, c) || GoesBelow(pageY, h, o, view, c));
      (p.arrow == Left <==> !vertical && !GoesLeft(pageX, w, o, c)) &&
      (p.arrow == Left ==>
         p.top == CentreAndClamp(pageY, h, view.h, c) &&
         p.left == pageX + c.arrowGraphicTargetOffset &&
         p.arrowOffset == pageY - CeilHalf(c.arrowGraphicWidth) - p.top)
  {
  }

  /**
   * An explicit orientation decides the branch: "left" and "right" always
   * win, "top" and "bottom" win when there is horizontal clearance and
   * otherwise fall through to the right-hand side, and any other non-empty
   * string ends on the right-hand side.
   */
  lemma OrientationOverrides(pageX: int, pageY: int, w: int, h: int, o: Option<string>, view: Viewport, c: Config)
    ensures var p := Place(pageX, pageY, w, h, o, view, c);
      (o == Some("left") ==> p.arrow == Right) &&
      (o == Some("right") ==> p.arrow == Left) &&
      (o == Some("top") ==> p.arrow == (if HasHorizontalClearance(pageX, view, c) then Down else Left)) &&
      (o == Some("bottom") ==> p.arrow == (if HasHorizontalClearance(pageX, view, c) then Up else Left)) &&
      (Truthy(o) && o.value != "top" && o.value != "bottom" && o.value != "left" ==> p.arrow == Left)
  {
  }

  /**
   * Without an orientation, a side other than the last resort is picked only
   * when the outer frame, with its padding, stays clear of that viewport edge.
   */
  lemma AutomaticChoiceHasRoom(pageX: int, pageY: int, w: int, h: int, o: Option<string>, view: Viewport, c: Config)
    requires !Truthy(o)
    ensures var p := Place(pageX, pageY, w, h, o, view, c);
      (p.arrow == Down ==> p.top - c.borderGraphicSize - c.extraPadding > 0) &&
      (p.arrow == Up ==> p.top + h + c.borderGraphicSize + c.extraPadding < view.h) &&
      (p.arrow == Right ==> p.left - c.borderGraphicSize - c.extraPadding > 0)
  {
  }

  /**
   * The outer-size-plus-padding fits on the axis: then the centred and clamped
   * box keeps padding + border from BOTH edges, not only from the one it was
   * pushed away from.
   */
  lemma ClampKeepsInside(p: int, size: int, extent: int, c: Config)
    requires size + 2 * (c.borderGraphicSize + c.extraPadding) <= extent
    ensures var r := CentreAndClamp(p, size, extent, c);
      c.extraPadding + c.borderGraphicSize <= r &&
      r + size + c.borderGraphicSize + c.extraPadding <= extent
  {
    var r := CentreAndClamp(p, size, extent, c);
    var half := CeilHalf(size);
    if 2 * p < extent {
      if r == p - half {
        assert 2 * (r + size) <= 2 * p + size;
      }
    } else {
      assert 2 * (p - half) >= extent - size - 1;
    }
  }

  /**
   * When the outer frame plus padding is no larger than the viewport on the
   * axis the box was centred on, the whole outer frame lies within the
   * viewport, at least the padding away from both edges.
   */
  lemma FrameWithinViewport(pageX: int, pageY: int, w: int, h: int, o: Option<string>, view: Viewport, c: Config)
    ensures var p := Place(pageX, pageY, w, h, o, view, c);
      var b := c.borderGraphicSize;
      ((p.arrow == Up || p.arrow == Down) && w + 2 * (b + c.extraPadding) <= view.w ==>
         c.extraPadding <= p.left - b && p.left + w + b <= view.w - c.extraPadding) &&
      ((p.arrow == Left || p.arrow == Right) && h + 2 * (b + c.extraPadding) <= view.h ==>
         c.extraPadding <= p.top - b && p.top + h + b <= view.h - c.extraPadding)
  {
    var p := Place(pageX, pageY, w, h, o, view, c);
    if (p.arrow == Up || p.arrow == Down) && w + 2 * (c.borderGraphicSize + c.extraPadding) <= view.w {
      PlacedAbove(pageX, pageY, w, h, o, view, c);
      PlacedBelow(pageX, pageY, w, h, o, view, c);
      ClampKeepsInside(pageX, w, view.w, c);
    }
    if (p.arrow == Left || p.arrow == Right) && h + 2 * (c.borderGraphicSize + c.extraPadding) <= view.h {
      PlacedLeftOf(pageX, pageY, w, h, o, view, c);
      PlacedRightOf(pageX, pageY, w, h, o, view, c);
      ClampKeepsInside(pageY, h, view.h, c);
    }
  }

  /**
   * A target in the far half of the viewport with content wider than the
   * viewport gets a negative offset: the clamp only guards the near edge.
   */
  lemma FarHalfClampCanBeNegative()
    ensures CentreAndClamp(600, 1200, 1000, BubbleConfig) == -270
  {
  }

  /**
   * A target near the top of a 1000 x 800 viewport with a 100 x 50 box and
   * no orientation: no room above, room below, so the bubble hangs below it.
   */
  lemma TargetNearTopGoesBelow()
    ensures HalfArrowWidth(BubbleConfig) == 25
    ensures Place(500, 10, 100, 50, None, Viewport(1000, 800), BubbleConfig) == Placement(Up, 450, 43, 25)
  {
  }
}
