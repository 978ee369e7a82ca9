/**
 * The size pre-step of Timeline.Graphics.createBubbleForContentAndPoint:
 * argument defaults, measuring the content after it has been laid out at the
 * requested width, capping the height at maxHeight, and choosing the box
 * the content goes into (a narrower scrolling box when the height was capped
 * and the content is more than 25 pixels wide).
 *
 * The browser's layout is a parameter: layout(w) is the (scrollWidth,
 * scrollHeight) of the content div once its style width is w pixels.
 */
module BubbleContent {
  import opened Wrappers
  import Bubble

  /** Width used when the caller's contentWidth is not a number. */
  const DefaultContentWidth: int := 300
  /** Added to both measured scroll dimensions. */
  const MeasureSlack: int := 10
  /** Room left for the vertical scrollbar inside a capped bubble. */
  const ScrollbarAllowance: int := 25

  datatype Size = Size(w: int, h: int)

  /** The two numeric arguments after defaulting (maxHeight 0 means no maximum). */
  datatype Settings = Settings(contentWidth: int, maxHeight: int)

  /** The measured content size and the width of the scrolling box (0: none). */
  datatype Measured = Measured(width: int, height: int, scrollDivW: int)

  /** Where the content div is attached inside the bubble, with its style width. */
  datatype Holder = ScrollBox(width: int) | Direct(width: int)

  datatype ContentBubble = ContentBubble(styleWidth: int, bubble: Bubble.Bubble, holder: Holder)

  /** A non-number contentWidth becomes 300, a non-number maxHeight becomes 0. */
  function ApplyDefaults(contentWidth: Option<int>, maxHeight: Option<int>): (s: Settings)
    ensures contentWidth.Some? ==> s.contentWidth == contentWidth.value
    ensures contentWidth.None? ==> s.contentWidth == DefaultContentWidth
    ensures maxHeight.Some? ==> s.maxHeight == maxHeight.value
    ensures maxHeight.None? ==> s.maxHeight == 0
  {
    Settings(if contentWidth.Some? then contentWidth.value else DefaultContentWidth,
             if maxHeight.Some? then maxHeight.value else 0)
  }

  /**
   * The measured size is the scroll size plus 10 on each axis; the height is
   * lowered to maxHeight exactly when a positive maxHeight is exceeded, and
   * only then is a scrolling box, 25 pixels narrower, asked for.
   */
  function Measure(scroll: Size, maxHeight: int): (m: Measured)
    ensures m.width == scroll.w + MeasureSlack
    ensures m.height <= scroll.h + MeasureSlack
    ensures m.height < scroll.h + MeasureSlack <==> maxHeight > 0 && scroll.h + MeasureSlack > maxHeight
    ensures m.height < scroll.h + MeasureSlack ==> m.height == maxHeight
    ensures m.scrollDivW == (if m.height < scroll.h + MeasureSlack then m.width - ScrollbarAllowance else 0)
  {
    var width := scroll.w + MeasureSlack;
    var height := scroll.h + MeasureSlack;
    if maxHeight > 0 && height > maxHeight then
      Measured(width, maxHeight, width - ScrollbarAllowance)
    else
      Measured(width, height, 0)
  }

  /**
   * A positive scroll-box width puts the content in a scrolling box of that
   * width; otherwise the content div itself gets the measured width.
   */
  function ContentHolder(m: Measured): (h: Holder)
    ensures h.ScrollBox? <==> m.scrollDivW > 0
    ensures h.width == if m.scrollDivW > 0 then m.scrollDivW else m.width
  {
    if m.scrollDivW > 0 then ScrollBox(m.scrollDivW) else Direct(m.width)
  }

  /**
   * createBubbleForContentAndPoint, with the 200 ms deferral collapsed: the
   * content is laid out at the defaulted width, measured, capped, and handed
   * to createBubbleForPoint.
   */
  function CreateBubbleForContentAndPoint(pageX: int, pageY: int, contentWidth: Option<int>,
                                          orientation: Option<string>, maxHeight: Option<int>,
                                          layout: int -> Size, view: Bubble.Viewport, c: Bubble.Config): (r: ContentBubble)
    ensures r.styleWidth == ApplyDefaults(contentWidth, maxHeight).contentWidth
    ensures r.bubble.contentWidth == layout(r.styleWidth).w + MeasureSlack
    ensures r.bubble.contentHeight <= layout(r.styleWidth).h + MeasureSlack
    ensures maxHeight.Some? && maxHeight.value > 0 ==> r.bubble.contentHeight <= maxHeight.value
    // A maxHeight that is absent, zero, negative or not exceeded means no maximum.
    ensures var h := layout(r.styleWidth).h + MeasureSlack;
      !(maxHeight.Some? && 0 < maxHeight.value < h) ==>
        r.bubble.contentHeight == h && r.holder == Direct(r.bubble.contentWidth)
    ensures var h := layout(r.styleWidth).h + MeasureSlack;
      maxHeight.Some? && 0 < maxHeight.value < h ==> r.bubble.contentHeight == maxHeight.value
    ensures r.bubble.placement ==
              Bubble.Place(pageX, pageY, r.bubble.contentWidth, r.bubble.contentHeight, orientation, view, c)
  {
    var settings := ApplyDefaults(contentWidth, maxHeight);
    var m := Measure(layout(settings.contentWidth), settings.maxHeight);
    ContentBubble(settings.contentWidth,
                  Bubble.CreateBubbleForPoint(pageX, pageY, m.width, m.height, orientation, view, c),
                  ContentHolder(m))
  }

  /**
   * Without a maxHeight the height is never capped and the content goes
   * straight into the bubble at its measured width; without a contentWidth
   * it is laid out 300 pixels wide.
   */
  lemma DefaultsNeverScroll(pageX: int, pageY: int, contentWidth: Option<int>, orientation: Option<string>,
                            layout: int -> Size, view: Bubble.Viewport, c: Bubble.Config)
    ensures var r := CreateBubbleForContentAndPoint(pageX, pageY, contentWidth, orientation, None, layout, view, c);
      (contentWidth.None? ==> r.styleWidth == DefaultContentWidth) &&
      r.bubble.contentHeight == layout(r.styleWidth).h + MeasureSlack &&
      r.holder == Direct(r.bubble.contentWidth)
  {
  }

  /**
   * Capped content at most 25 pixels wide (scroll width at most 15) gets no
   * scrolling box: the content div goes straight into a bubble that is
   * maxHeight tall, so the part below maxHeight is not reachable by scrolling.
   */
  lemma NarrowCappedContentIsNotScrolled(pageX: int, pageY: int, contentWidth: Option<int>, orientation: Option<string>,
                                         maxHeight: Option<int>, layout: int -> Size, view: Bubble.Viewport, c: Bubble.Config)
    requires var s := ApplyDefaults(contentWidth, maxHeight).contentWidth;
      maxHeight.Some? && 0 < maxHeight.value < layout(s).h + MeasureSlack &&
      layout(s).w + MeasureSlack <= ScrollbarAllowance
    ensures var r := CreateBubbleForContentAndPoint(pageX, pageY, contentWidth, orientation, maxHeight, layout, view, c);
      r.bubble.contentHeight == maxHeight.value &&
      r.holder == Direct(r.bubble.contentWidth)
  {
  }

  /**
   * A scrolling box is used only for content whose height was capped, and it
   * is 25 pixels narrower than the bubble's content box, which is maxHeight
   * tall; capped content wider than 25 pixels always gets one.
   */
  lemma ScrollBoxOnlyWhenCapped(pageX: int, pageY: int, contentWidth: Option<int>, orientation: Option<string>,
                                maxHeight: Option<int>, layout: int -> Size, view: Bubble.Viewport, c: Bubble.Config)
    ensures var r := CreateBubbleForContentAndPoint(pageX, pageY, contentWidth, orientation, maxHeight, layout, view, c);
      r.holder.ScrollBox? ==>
        maxHeight.Some? && 0 < maxHeight.value < layout(r.styleWidth).h + MeasureSlack &&
        r.bubble.contentHeight == maxHeight.value &&
        r.holder.width == r.bubble.contentWidth - ScrollbarAllowance
    ensures var r := CreateBubbleForContentAndPoint(pageX, pageY, contentWidth, orientation, maxHeight, layout, view, c);
      maxHeight.Some? && 0 < maxHeight.value < layout(r.styleWidth).h + MeasureSlack &&
      r.bubble.contentWidth > ScrollbarAllowance ==>
        r.holder == ScrollBox(r.bubble.contentWidth - ScrollbarAllowance)
  {
    var s := ApplyDefaults(contentWidth, maxHeight);
    var m := Measure(layout(s.contentWidth), s.maxHeight);
    assert ContentHolder(m).ScrollBox? ==> m.height < layout(s.contentWidth).h + MeasureSlack;
  }
}
