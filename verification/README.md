# Floating glassmorphism toolbar: a Dafny model of its controller

PDF4QT's `PDFGlassmorphismToolbar` is a frameless, translucent window. It
hosts a tool bar and floats over the viewer. With the painting and toolkit
glue removed, what is left is a small controller:

- **anchor placement**: one of six positions (top/bottom by left/centre/right)
  becomes a top-left point, computed from the parent's size alone with a
  20-pixel margin. The toolbar is its own window, so that point becomes its
  desktop position; the parent's position is never added. The centre
  columns use C++'s truncating `int` division.
- **dragging**: a left press records the grab offset, moves carry the window,
  and a left release ends the drag.
- **auto-hide and fade**: a single-shot timer triggers `hideAnimated`. Pointer
  entry stops the timer and fades back in, and pointer exit restarts it. The
  opacity animation either fades in or fades out. A fade-out connects a
  handler that hides the widget when the animation finishes.
- **stored properties**: the hosted tool bar, the anchor, the auto-hide flag
  and timeout, and the opacity (clamped to [0, 1]). The light/dark theme
  decision is also modelled: window lightness below 128 is dark.

The model is functional. `GlassToolbar.Toolbar` is an immutable record of the
widget's state. Each handler is a pure function from one state to the next.
`ToolbarTraces.Step` dispatches one owner call or toolkit event, and
`ToolbarTraces.Run` delivers a whole trace of them in order. The toolkit
supplies the parent geometry and the size hint as an input (`Env`) with every
event. The timer is modelled as `Stopped | Running(interval)`. The animation is
`Idle | Fading(endValue)` together with a count of connected hide-on-finish
handlers. Animation frames and the animation's end are events in the trace.

Modules:

- `Geometry`: points, sizes, the C++ `int` range, and truncating halving.
- `Theme`: the dark-theme threshold shared by the style proxy and the toolbar.
- `Anchor`: the six positions and the anchor arithmetic.
- `GlassToolbar`: the state and one function per handler.
- `ToolbarTraces`: events, traces, and the properties of every trace.
- `Findings`: the fade-in that still hides (see below).

`ShowAnimated`, `Enter`, `Step` and `Run` take a `Build`. `AsWritten` behaves
as the source does. `Corrected` also drops the pending hide handlers when a
fade-in starts. Every lemma in `ToolbarTraces` holds for both builds, and
`BuildsAgreeWithoutFadeIn` shows the two builds agree on every trace with no
animated show and no pointer entry. The correction does not touch an entry that arrives while the
opacity is still 1: the source starts no fade-in then, so the fade-out goes
on and hides the toolbar in both builds (`EnterAtFullOpacityKeepsFadeOut`).

Disabling auto-hide stops only the timer. A fade-out already under way
still hides the toolbar (`DisablingDoesNotCancelFadeOut`).

The timer is started through the toolkit, which refuses a negative interval
and leaves the timer inactive. `StartTimer` models that. A negative
auto-hide timeout therefore leaves the timer stopped on every later start,
but a timer already running keeps its interval and fires once more, and the
fade-out it starts still hides the toolbar (`NegativeTimeoutFiresOnce`).

## Model

| member | source | states |
|---|---|---|
| Theme.ThresholdBoundary | Pdf4QtLibWidgets/sources/pdfglassmorphismwidget.cpp:44-50 | A window lightness of 127 is dark and 128 is light; 0 is dark and 255 is light. |
| Theme.DarkIsDownwardClosed | Pdf4QtLibWidgets/sources/pdfglassmorphismwidget.cpp:382-387 | Any window darker than a dark one is dark, and any window lighter than a light one is light, so a single threshold splits the range. |
| Geometry.TruncHalf | Pdf4QtLibWidgets/sources/pdfglassmorphismwidget.cpp:339 | C++ `a / 2` is fixed by its remainder: the remainder is 0 or 1 for non-negative `a`, and 0 or -1 for negative `a`. |
| Geometry.TruncHalfVersusEuclidean | Pdf4QtLibWidgets/sources/pdfglassmorphismwidget.cpp:351 | C++ halving equals Euclidean halving exactly when `a` is non-negative or even; for negative odd `a` it is one larger. |
| Anchor.SixPositions | Pdf4QtLibWidgets/sources/pdfglassmorphismwidget.h:62-70 | There are exactly six anchors, and each anchor is exactly one (row, column) pair. |
| Anchor.AnchorPoint | Pdf4QtLibWidgets/sources/pdfglassmorphismwidget.cpp:336-362 | Top anchors give y = 20. Bottom anchors leave exactly 20 pixels below the toolbar. Left anchors give x = 20. Right anchors leave exactly 20 pixels to the right. Centre anchors give 2x <= free width <= 2x + 1, or the mirror of that when the toolbar is wider than the parent. |
| Anchor.RowAndColumnAreIndependent | Pdf4QtLibWidgets/sources/pdfglassmorphismwidget.cpp:338-361 | x depends only on the column and y only on the row; choosing top or bottom never changes x. |
| Anchor.CenterIsSymmetric | Pdf4QtLibWidgets/sources/pdfglassmorphismwidget.cpp:338-341 | When the toolbar fits, the right gap equals the left gap, or is one pixel larger. |
| Anchor.OverhangTruncatesTowardZero | Pdf4QtLibWidgets/sources/pdfglassmorphismwidget.cpp:350-353 | A toolbar 3 pixels wider than its parent is centred at x = -1, where Euclidean halving would give -2. |
| Anchor.AnchorFitsInt | Pdf4QtLibWidgets/sources/pdfglassmorphismwidget.cpp:330-364 | With non-negative dimensions up to 2^30, every intermediate and final coordinate fits in a C++ `int`. |
| GlassToolbar.Init | Pdf4QtLibWidgets/sources/pdfglassmorphismwidget.cpp:90-99 | A new toolbar holds no tool bar, is anchored TopCenter, has auto-hide off with a 3000 ms timeout, has opacity 1, is not dragging, has a stopped timer and an idle animation, and is valid. |
| GlassToolbar.ClampOpacity | Pdf4QtLibWidgets/sources/pdfglassmorphismwidget.cpp:171 | The result lies in [0, 1]. It equals the input inside that range, 0 below it, and 1 above it. |
| GlassToolbar.SetOpacity | Pdf4QtLibWidgets/sources/pdfglassmorphismwidget.cpp:169-173 | The stored opacity becomes max(0, min(1, x)) and nothing else changes. |
| GlassToolbar.SetToolbar | Pdf4QtLibWidgets/sources/pdfglassmorphismwidget.cpp:124-143 | The held tool bar becomes the argument (none for null), nothing else changes, and passing the held tool bar changes nothing at all. |
| GlassToolbar.SetAutoHideTimeout | Pdf4QtLibWidgets/sources/pdfglassmorphismwidget.cpp:164-167 | The timeout is stored and a running timer keeps its interval. |
| GlassToolbar.UpdatePosition | Pdf4QtLibWidgets/sources/pdfglassmorphismwidget.cpp:325-365 | With a parent, the toolbar moves to the anchor point for its position and size hint. Without one, nothing changes. Only the top-left can change. |
| GlassToolbar.SetPosition | Pdf4QtLibWidgets/sources/pdfglassmorphismwidget.cpp:145-149 | The anchor is stored and, when there is a parent, the toolbar moves to the new anchor point. |
| GlassToolbar.Resize | Pdf4QtLibWidgets/sources/pdfglassmorphismwidget.cpp:308-312 | A resize snaps to the current anchor when there is a parent and changes nothing but the top-left; without a parent it changes nothing. |
| GlassToolbar.StartTimer | Pdf4QtLibWidgets/sources/pdfglassmorphismwidget.cpp:371 | The toolkit's `start(ms)`: the timer ends up `Running(ms)` exactly when `ms >= 0`, and `Stopped` otherwise, whatever it was before. |
| GlassToolbar.ResetAutoHideTimer | Pdf4QtLibWidgets/sources/pdfglassmorphismwidget.cpp:367-373 | With auto-hide on, the timer is restarted with the current timeout, or left stopped if the timeout is negative. With it off, nothing changes. |
| GlassToolbar.SetAutoHideEnabled | Pdf4QtLibWidgets/sources/pdfglassmorphismwidget.cpp:151-162 | Enabling starts the timer with the current timeout (stopped if the timeout is negative). Disabling stops it. Only the flag and the timer change. |
| GlassToolbar.OnShow | Pdf4QtLibWidgets/sources/pdfglassmorphismwidget.cpp:314-323 | The show handler snaps to the anchor and, with auto-hide on, restarts the timer. Only the top-left and the timer change. |
| GlassToolbar.Show | Pdf4QtLibWidgets/sources/pdfglassmorphismwidget.cpp:177 | The toolkit's `show()`: the widget ends up visible. A hidden widget also receives the show handler; showing a visible widget changes nothing and delivers no show event. |
| GlassToolbar.Hide | Pdf4QtLibWidgets/sources/pdfglassmorphismwidget.cpp:190 | The toolkit's `hide()`: the widget becomes hidden and nothing else changes. |
| GlassToolbar.ShowAnimated | Pdf4QtLibWidgets/sources/pdfglassmorphismwidget.cpp:175-182 | The widget is shown and the animation heads for opacity 1. As written, the pending hide handlers are kept. |
| GlassToolbar.HideAnimated | Pdf4QtLibWidgets/sources/pdfglassmorphismwidget.cpp:184-194 | The animation heads for opacity 0 and one more hide-on-finish handler is connected. Visibility and opacity do not change yet. |
| GlassToolbar.FadeFrame | Pdf4QtLibWidgets/sources/pdfglassmorphismwidget.h:59 | An animation frame writes through the opacity property, so the value is clamped. With no animation running, nothing changes. |
| GlassToolbar.FadeFinished | Pdf4QtLibWidgets/sources/pdfglassmorphismwidget.cpp:189-192 | A finishing animation leaves the end value as the opacity, goes idle, disconnects every hide handler, and leaves the widget visible only if it was visible and no handler was connected. Nothing else changes. |
| GlassToolbar.TimerTimeout | Pdf4QtLibWidgets/sources/pdfglassmorphismwidget.cpp:117-119 | A running single-shot timer stops, starts a fade-out and connects one more hide handler; nothing else changes. A stopped timer never fires. |
| GlassToolbar.Enter | Pdf4QtLibWidgets/sources/pdfglassmorphismwidget.cpp:284-296 | With auto-hide off, nothing happens. With it on, the timer stops, and a fade-in starts only when opacity is below 1. |
| GlassToolbar.Leave | Pdf4QtLibWidgets/sources/pdfglassmorphismwidget.cpp:298-306 | With auto-hide off, nothing happens. With it on, the timer restarts with the current timeout (stopped if negative) and nothing else changes. |
| GlassToolbar.MousePress | Pdf4QtLibWidgets/sources/pdfglassmorphismwidget.cpp:256-264 | A left press starts a drag whose offset, added to the top-left, is the press point. Other buttons change nothing. |
| GlassToolbar.MouseMove | Pdf4QtLibWidgets/sources/pdfglassmorphismwidget.cpp:266-273 | While dragging, the new top-left plus the grab offset is the pointer position. Otherwise nothing changes. |
| GlassToolbar.MouseRelease | Pdf4QtLibWidgets/sources/pdfglassmorphismwidget.cpp:275-282 | Only a left release clears the drag flag. Other buttons change nothing. |
| ToolbarTraces.Step | Pdf4QtLibWidgets/sources/pdfglassmorphismwidget.h:75-106 | Only the matching setter changes the tool bar, the anchor, the auto-hide flag or the timeout, and every event preserves validity. |
| ToolbarTraces.RunKeepsValid | Pdf4QtLibWidgets/sources/pdfglassmorphismwidget.h:91-92 | After any trace, `opacity()` is in [0, 1], the animation heads for 0 or 1, and the timer runs only while auto-hide is on and with a non-negative interval. |
| ToolbarTraces.GettersReportLastSet | Pdf4QtLibWidgets/sources/pdfglassmorphismwidget.h:76-88 | After any trace, `getToolbar`, `getPosition`, `isAutoHideEnabled` and `getAutoHideTimeout` each return the value most recently passed to their setter, or the initial value if the setter was never called. |
| ToolbarTraces.DisabledStaysQuiet | Pdf4QtLibWidgets/sources/pdfglassmorphismwidget.cpp:151-162 | Start with auto-hide off and no hide pending. Then no trace that neither re-enables auto-hide nor requests a hide can start the timer, connect a hide handler, or hide the toolbar. |
| ToolbarTraces.TimerStaysStopped | Pdf4QtLibWidgets/sources/pdfglassmorphismwidget.cpp:367-373 | With auto-hide off and the timer stopped, no trace that does not re-enable auto-hide starts the timer or turns auto-hide on. |
| ToolbarTraces.DisablingStopsPendingHide | Pdf4QtLibWidgets/sources/pdfglassmorphismwidget.cpp:151-162 | From any state, disabling auto-hide stops the timer; it stays stopped, and an expiry does nothing, until auto-hide is re-enabled. |
| ToolbarTraces.NegativeTimeoutFiresOnce | Pdf4QtLibWidgets/sources/pdfglassmorphismwidget.cpp:164-167 | Setting a negative timeout leaves a running timer running with its old interval; it still fires and its fade-out hides the toolbar, while the restart on pointer exit leaves the timer stopped. |
| ToolbarTraces.DisablingDoesNotCancelFadeOut | Pdf4QtLibWidgets/sources/pdfglassmorphismwidget.cpp:151-162 | Disabling auto-hide during a fade-out does not cancel it: when it finishes, the toolbar is hidden at opacity 0. |
| ToolbarTraces.DragMovesByPointerDelta | Pdf4QtLibWidgets/sources/pdfglassmorphismwidget.cpp:256-282 | A left press at P, a move to Q and a left release move the window by exactly Q - P and leave no drag active. |
| ToolbarTraces.NonLeftPressDoesNotDrag | Pdf4QtLibWidgets/sources/pdfglassmorphismwidget.cpp:258-272 | A press with another button followed by a move leaves the state unchanged. |
| ToolbarTraces.NonLeftReleaseKeepsDragging | Pdf4QtLibWidgets/sources/pdfglassmorphismwidget.cpp:275-282 | Releasing another button mid-drag keeps the drag, and the next move still carries the window by Q - P. |
| ToolbarTraces.DragIsUnbounded | Pdf4QtLibWidgets/sources/pdfglassmorphismwidget.cpp:266-273 | Any top-left point can be reached by one press and one move; nothing clamps to the parent or the screen. |
| ToolbarTraces.ResizeDiscardsDrag | Pdf4QtLibWidgets/sources/pdfglassmorphismwidget.cpp:308-312 | A resize after a drag puts the toolbar back on its anchor point, whatever the drag did. |
| ToolbarTraces.ShowDiscardsDrag | Pdf4QtLibWidgets/sources/pdfglassmorphismwidget.cpp:314-323 | Showing a hidden toolbar after a drag puts it back on its anchor point and, with auto-hide on, restarts the timer (stopped if the timeout is negative). |
| ToolbarTraces.BuildsAgreeWithoutFadeIn | Pdf4QtLibWidgets/sources/pdfglassmorphismwidget.cpp:175-182 | On traces with no animated show and no pointer entry, the as-written and corrected builds reach the same state. |
| Findings.AsWrittenFadeInStillHides | Pdf4QtLibWidgets/sources/pdfglassmorphismwidget.cpp:175-194 | As written, if a hide is pending, an animated show whose fade then completes leaves the toolbar fully opaque but hidden. |
| Findings.ReEnteringDuringFadeOutHides | Pdf4QtLibWidgets/sources/pdfglassmorphismwidget.cpp:284-296 | From a new toolbar: enable auto-hide, show, let the timer expire, reach half opacity, enter, and let the fade end. As written the toolbar ends hidden; in the corrected build it stays shown. |
| Findings.EnterAtFullOpacityKeepsFadeOut | Pdf4QtLibWidgets/sources/pdfglassmorphismwidget.cpp:288-295 | In both builds, an entry during a fade-out while the opacity is still 1 starts no fade-in, so the fade-out completes and hides the toolbar. |
| Findings.CorrectedKeepsHandlersForFadeOut | Pdf4QtLibWidgets/sources/pdfglassmorphismwidget.cpp:184-194 | In the corrected build, a hide handler is connected only while the animation fades out, after any trace. |
| Findings.CorrectedFadeInNeverHides | Pdf4QtLibWidgets/sources/pdfglassmorphismwidget.cpp:175-182 | In the corrected build, from a new toolbar, every completed fade-in leaves the toolbar fully opaque and exactly as visible as it was. |

## Findings

| source | as written | input that shows it | evidently intended | confidence | as-written member | corrected member |
|---|---|---|---|---|---|---|
| Pdf4QtLibWidgets/sources/pdfglassmorphismwidget.cpp:175-194 | `showAnimated` stops and restarts the animation. It does not disconnect the `finished` handler that `hideAnimated` connected, so a fade-in that interrupts a fade-out hides the widget when it completes. | Auto-hide on, widget shown. The timer expires, and at opacity 0.5 the pointer enters. The fade-in reaches 1 and the widget disappears. | A fade-in leaves the widget visible. Only a completed fade-out hides it. | medium; not executed (relies on Qt emitting `finished` only on natural completion, not on `stop()`) | Findings.ReEnteringDuringFadeOutHides | Findings.CorrectedFadeInNeverHides |

## Left out

- Painting (`paintEvent`, `PDFGlassmorphismStyle::drawPrimitive`, `drawControl`): painter calls, gradients, pens, rounded paths and colour constants. There is no controller logic in them.
- Window flags, widget attributes, layout margins, the tool bar's style sheet and `applyGlassmorphismStyle`: toolkit configuration.
- The side effects of `setToolbar` on widgets: removing, reparenting and adding the tool bar, its style sheet, and `adjustSize()`. Only the held id is modelled. A resize that `adjustSize()` causes appears as a separate `Resized` event in the trace.
- `sizeHint`, parent `geometry()` and the parent pointer are inputs (`Env`), not computations. The window is frameless, so `frameGeometry().topLeft()` is taken to be the widget origin.
- Timer timing: only stopped and running are modelled. When a timer expires is decided by the trace.
- Animation interpolation, the 300 ms duration and the InOutCubic easing curve: frames arrive as `FadeFrameArrived(value)` events with the value as input, and the end is a `FadeEnded` event.
- The event loop: events form a sequential trace; there is no concurrency.
- `update()` repaint requests and `event->accept()` calls have no effect on the modelled state.
- ClampOpacity: opacity is a Dafny `real`, so `qreal` rounding and NaN are not modelled.
- MouseMove: drag coordinates are unbounded integers. C++ `QPoint` subtraction overflow is not modelled, because drags are unbounded by design (`DragIsUnbounded`).
- AnchorPoint: coordinates are unbounded integers, and the C++ result is computed for any sizes, negative ones included. `AnchorFitsInt` shows that no `int` overflow can occur for non-negative dimensions up to 2^30; the wrap-around (undefined behaviour in C++) for geometry beyond that bound is not modelled.
- AnchorPoint: the parent's position is not an input, because the source reads only the parent's width and height and moves a top-level window to the result. The toolbar's position therefore ignores the parent's desktop offset, so for a parent away from the desktop origin it can land partly or wholly outside the parent; the model computes the same point and does not claim a margin from the parent's on-screen edges.
- SetAutoHideTimeout: any `int` is stored. A negative one leaves the timer inactive on every later start (`StartTimer`), while a timer already running keeps its interval, following the toolkit's refusal of negative intervals; the warning the toolkit prints is not modelled.
- Enter: the toolkit delivers enter events only to visible widgets. For a hidden widget the model simply composes the handlers: `show()` runs the show handler, which restarts the timer.
