# Timeline graphics helpers: bubble placement, content sizing, animation stepping

This project models the parts of `Timeline.Graphics` (the graphics helpers of
the SIMILE-style timeline widget) that compute something:

- **Bubble placement** (`createBubbleForPoint`, module `Bubble`). Given the
  page point a popup must point at, the size of its content box, an optional
  orientation hint and the viewport size, the bubble goes above the point,
  else below it, else to its left, else to its right (the last resort). On the
  axis the bubble is spread along, the box is centred on the point and pushed
  away from the edge of the half of the viewport the point lies in. The DOM
  writes (`div.style.left`, `div.style.top`, the arrow's `style.left` or
  `style.top`) become the fields of a `Placement` value. The layout constants
  of `bubbleConfig` are a `Config` value; `BubbleConfig` holds the shipped
  values (border 50, arrow target offset 33, arrow length 100, arrow width 49,
  padding 20).
- **Content sizing** (`createBubbleForContentAndPoint`, module
  `BubbleContent`). It applies defaults to the arguments and measures the
  content (scroll size plus 10). It caps the height at a positive `maxHeight`.
  Capped content more than 25 pixels wide is put in a scrolling box 25 pixels
  narrower. Capped content 25 pixels wide or less gets no scrolling box: it
  goes directly into a bubble that is `maxHeight` tall.
  The browser's layout is a parameter `layout(width)` that gives the scroll
  size of the content laid out at that width.
- **Animation stepping** (`_Animation`, module `Animations`). A class with the
  source's fields `timePassed` and `current`. Its method `Step` is `step()`,
  and `Run` is `run()` with its `setTimeout` chain written as a loop. The
  calls made to `f` and `cont` are recorded in order in a field `calls`. The
  cosine easing is an opaque parameter `ease(timePassed, duration)`. Whether
  a call of `f` throws is an opaque parameter `throws(i, value, delta)`, where
  `i` is the number of earlier calls of `f`. So an `f` whose behaviour depends
  on its own history, such as one that throws only on its first call, can be
  expressed.

Integer encodings used throughout: `Math.ceil(n/2)` and `Math.round(n/2)` on
an integer `n` are both `CeilHalf(n) = (n + 1) / 2`, because `Math.round`
rounds halves upward. The test `pageX < docWidth / 2` is written
`2 * pageX < docWidth`. A JavaScript orientation argument is an
`Option<string>`; `None` and `Some("")` are both "no orientation", as they are
falsy in JavaScript.

Two behaviours of the code are worth stating plainly:

- The completion callback is not reached when the final `f(to, 0)` throws.
  Only the regular calls of `f` are inside a `try`
  (graphics.js:428-438). `ContCalledOnceUnlessFinalThrows` proves that `cont`
  is called exactly once when the final call does not throw, and never when
  it does.
- The clamp keeps the offset at least `padding + border` only for a target in
  the near half of the viewport. For a target in the far half, the clamp
  guards only the far edge, so content larger than the viewport can get a
  negative offset (graphics.js:208, `FarHalfClampCanBeNegative`).

## Model

The lemmas are stated for any `Config`. In this table, 33 stands for `arrowGraphicTargetOffset` and 25 for `ceil(arrowGraphicWidth / 2)`, which are their values in the shipped configuration.

| member | source | states |
|---|---|---|
| `Bubble.CeilHalf` | js/timeline/timeline-js/scripts/graphics.js:189 | the half arrow width (and the rounded half content size) is half its argument rounded up: `n <= 2r <= n+1` |
| `Bubble.CentreAndClamp` | js/timeline/timeline-js/scripts/graphics.js:205-208 | a target in the near half gets the centred offset raised to at least padding + border; a target in the far half gets it lowered so that the box ends at least padding + border before the far edge; either way the result is the centred value or the bound |
| `Bubble.Place` | js/timeline/timeline-js/scripts/graphics.js:184-285 | in every branch the arrow's centre lies on the target: `left + arrowOffset + halfArrowWidth == pageX` for the vertical branches and `top + arrowOffset + halfArrowWidth == pageY` for the horizontal ones, where `halfArrowWidth` is `ceil(arrowGraphicWidth / 2)` (25 with the shipped constants), both measured against the clamped frame position |
| `Bubble.CreateBubbleForPoint` | js/timeline/timeline-js/scripts/graphics.js:105-114 | the outer size adds `2 * borderGraphicSize` to the content size on each axis. When that outer frame plus the padding on both sides fits the viewport on the axis the bubble is centred on (x for arrow Up/Down, y for Left/Right), the outer frame lies at least the padding inside the viewport on that axis. The placement is that of `Place` |
| `Bubble.PlacedAbove` | js/timeline/timeline-js/scripts/graphics.js:198-228 | arrow Down if and only if the horizontal-clearance test holds and orientation is "top" or absent with room above; then `left` is the centred-and-clamped x, `top = pageY - 33 - contentHeight`, and arrow offset `pageX - 25 - left` |
| `Bubble.PlacedBelow` | js/timeline/timeline-js/scripts/graphics.js:229-247 | arrow Up if and only if there is clearance, the above test failed, and orientation is "bottom" or absent with room below; then `top = pageY + 33` and the same `left` and arrow offset |
| `Bubble.PlacedLeftOf` | js/timeline/timeline-js/scripts/graphics.js:251-272 | arrow Right if and only if neither vertical branch applied and orientation is "left" or absent with room on the left; then `top` is the centred-and-clamped y, `left = pageX - 33 - contentWidth`, and arrow offset `pageY - 25 - top` |
| `Bubble.PlacedRightOf` | js/timeline/timeline-js/scripts/graphics.js:273-284 | arrow Left (the last resort) if and only if every other branch failed; then `left = pageX + 33` and the same `top` and arrow offset; with the three lemmas above, every input gets exactly one placement |
| `Bubble.OrientationOverrides` | js/timeline/timeline-js/scripts/graphics.js:210-262 | "left" always gives arrow Right and "right" always gives arrow Left; "top"/"bottom" give Down/Up when there is clearance and the right-hand side otherwise; any other non-empty string ends on the right-hand side |
| `Bubble.AutomaticChoiceHasRoom` | js/timeline/timeline-js/scripts/graphics.js:210-262 | with no orientation, above/below/left are chosen only when the outer frame plus padding stays clear of the top/bottom/left viewport edge |
| `Bubble.ClampKeepsInside` | js/timeline/timeline-js/scripts/graphics.js:205-208 | when the outer size plus padding fits on the axis, the clamped box keeps padding + border from both edges, not only the one it was pushed from |
| `Bubble.FrameWithinViewport` | js/timeline/timeline-js/scripts/graphics.js:198-254 | when the outer frame plus padding fits on the axis the bubble was centred on, the whole outer frame lies at least the padding inside the viewport on that axis |
| `Bubble.FarHalfClampCanBeNegative` | js/timeline/timeline-js/scripts/graphics.js:205-208 | a target at x = 600 in a 1000-wide viewport with 1200-wide content gets offset -270: the far-half clamp does not keep the offset non-negative |
| `Bubble.TargetNearTopGoesBelow` | js/timeline/timeline-js/scripts/graphics.js:198-247 | with the shipped constants of `bubbleConfig` (graphics.js:13-29), half the arrow width is 25, and a 100 x 50 box for target (500, 10) in a 1000 x 800 viewport goes below: arrow Up, left 450, top 43, arrow offset 25 |
| `BubbleContent.Measure` | js/timeline/timeline-js/scripts/graphics.js:62-68 | the width is the scroll width plus 10; the height is the scroll height plus 10, lowered to maxHeight exactly when a positive maxHeight is exceeded; the scroll box width is `width - 25` in that case and 0 otherwise |
| `BubbleContent.CreateBubbleForContentAndPoint` | js/timeline/timeline-js/scripts/graphics.js:43-88 | the content is laid out at the defaulted width; the bubble's content width is the measured width. When a positive maxHeight is exceeded the height is maxHeight. Otherwise, including a maxHeight that is absent, 0 or negative ("no maximum"), the height is the measured one and the content goes directly into the bubble. The placement is `Place` of the measured size |
| `BubbleContent.DefaultsNeverScroll` | js/timeline/timeline-js/scripts/graphics.js:48-87 | with no maxHeight the height is the measured one and the content goes directly into the bubble; with no content width it is laid out 300 wide |
| `BubbleContent.ScrollBoxOnlyWhenCapped` | js/timeline/timeline-js/scripts/graphics.js:62-87 | a scrolling box is used only when a positive maxHeight was exceeded. The bubble is then maxHeight tall and the box 25 narrower than the content. Capped content wider than 25 always gets the box |
| `BubbleContent.NarrowCappedContentIsNotScrolled` | js/timeline/timeline-js/scripts/graphics.js:65-86 | capped content at most 25 wide gets no scrolling box (`scrollDivW <= 0` fails the test at line 78). It goes directly into a bubble that is maxHeight tall |
| `Animations.StepCount` | js/timeline/timeline-js/scripts/graphics.js:421-439 | the number of steps is the least `n >= 1` with `50n >= duration` |
| `Animations.StepCountUnique` | js/timeline/timeline-js/scripts/graphics.js:434-439 | any `k >= 1` whose step reaches the duration while the previous step did not is `StepCount(duration)` |
| `Animations.StepCountIsCeiling` | js/timeline/timeline-js/scripts/graphics.js:421-439 | for positive durations the step count is `ceil(duration / 50)` |
| `Animations.Animation.constructor` | js/timeline/timeline-js/scripts/graphics.js:394-405 | a new animation starts with `current = from`, `timePassed = 0`, and no calls made |
| `Animations.Animation.Ticks` | js/timeline/timeline-js/scripts/graphics.js:421-432 | n steps make exactly n regular calls of f, one per step |
| `Animations.TicksInOrder` | js/timeline/timeline-js/scripts/graphics.js:421-432 | the i-th regular call of f is that of step i + 1: the eased value after `50(i+1)` ms and its change from the previous value |
| `Animations.Animation.Step` | js/timeline/timeline-js/scripts/graphics.js:421-440 | `timePassed` grows by exactly 50; `current` becomes the eased value whether or not `f` threw; one call of f is recorded; the step reschedules while `timePassed < duration`; otherwise it records `f(to, 0)`, then `cont` unless that call threw, and reports how it ended |
| `Animations.Animation.Run` | js/timeline/timeline-js/scripts/graphics.js:410-440 | a new animation runs `StepCount(duration)` steps; it ends with `timePassed = 50 * StepCount(duration)`, the least multiple of 50 that reaches the duration; its calls are exactly `Trace()`; it completes unless the final `f(to, 0)` throws |
| `Animations.TraceOrder` | js/timeline/timeline-js/scripts/graphics.js:428-439 | the trace is the regular calls of f in step order, then `f(to, 0)`, then `cont` only if that call did not throw |
| `Animations.ValuesIgnoreFaults` | js/timeline/timeline-js/scripts/graphics.js:428-432 | two animations that differ only in which calls of f throw pass f the same value and the same delta at every step. The delta is measured from the previous step's value, because `current` is updated even after a caught exception |
| `Animations.RegularFaultsStillComplete` | js/timeline/timeline-js/scripts/graphics.js:428-439 | an f that throws on every regular call but not on the final one still has every step taken, and every regular call recorded as thrown. `cont` is reached exactly once, last |
| `Animations.ContCalledOnceUnlessFinalThrows` | js/timeline/timeline-js/scripts/graphics.js:434-439 | f is called `StepCount(duration) + 1` times; `cont` (or the no-op default) is called exactly once when the final `f(to, 0)` does not throw, and never when it does |
| `Animations.TwoHundredMillisScenario` | js/timeline/timeline-js/scripts/graphics.js:421-439 | a 200 ms animation takes 4 steps at 50, 100, 150 and 200 ms; the fifth call of f is the final `f(to, 0)`; `cont` follows once unless that call throws |

## Left out

- DOM construction is not modelled: CSS class names, the border, arrow and close `div`s, `appendChild`/`removeChild`, the style writes not listed above, `createMessageBubble` and `createStructuredDataCopyButton`. This is browser I/O with no computation in it.
- The window-manager layer push/pop and the close handler are not modelled. `Timeline.WindowManager` is not part of this model.
- `getWindowDimensions`, the browser's layout of the content, and the font rendering context read browser state. They are the parameters `view` and `layout`.
- The `setTimeout` deferrals are not real timers. The 200 ms wait before measuring is collapsed into one call. The 50 ms chain of `run()` is the loop of `Run`. Calling `run()` again on a running animation, which would start a second chain, is not modelled.
- The cosine easing `-cos(t * PI) / 2 + 0.5` is floating-point numerics. It is the opaque parameter `ease(timePassed, duration)`. Numbers are modelled as exact integers or reals, so `NaN` and `Infinity` (for example from a zero duration) are not modelled.
- `parseInt` on sizes that are not integers, and the `NaN` it gives on garbage, are not modelled: sizes are integers.
- The animation's `start` field (a clock reading that is never used afterwards) is not modelled.
- Truthy orientation values that are not strings are not modelled: an orientation is an optional string.
- `Animations.Animation.Run`: requires a new animation (no step taken yet), which is how `createAnimation(...).run()` is used. It does not model `run()` called on an animation that has already stepped.
- Side effects of `f` and `cont` other than the order of their calls, their arguments and whether `f` throws are not modelled. In particular, anything `f` changes in the animation itself is not modelled.
