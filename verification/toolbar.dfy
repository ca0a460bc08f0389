/** The controller behind the floating glassmorphism toolbar: stored
    properties, anchor snapping, dragging, the auto-hide timer and the fade
    animation, as an immutable state and one pure function per handler. */
module GlassToolbar {
  import opened Geometry
  import opened Anchor

  /** The identity of a hosted tool bar; the widget itself is not modelled. */
  type ToolbarId = nat

  /** The single-shot auto-hide timer: stopped, or counting down an interval
      in milliseconds fixed when it was started. */
  datatype Timer = Stopped | Running(interval: Int32)

  /** The toolkit refuses to start a timer with a negative interval; the
      timer is then left inactive. */
  predicate AcceptedInterval(ms: Int32) {
    ms >= 0
  }

  /** The opacity animation: idle, or fading toward an end value. Its
      interpolation and easing are not modelled; frames arrive as inputs. */
  datatype Fade = Idle | Fading(endValue: real)

  datatype MouseButton = LeftButton | RightButton | MiddleButton | OtherButton

  /** What the toolkit supplies on every call: the parent's geometry (none
      for a parentless toolbar) and the toolbar's current size hint. */
  datatype Env = Env(parent: Option<Size>, sizeHint: Size)

  /** Which definition of `ShowAnimated` to use: the one the widget has, or
      one that also drops the pending hide-on-finish handlers. */
  datatype Build = AsWritten | Corrected

  /** The widget's state. `topLeft` is both the frame and the widget origin
      (the window is frameless). `finishHandlers` counts the hide-on-finish
      handlers connected to the animation's `finished` signal. */
  datatype Toolbar = Toolbar(
    toolbar: Option<ToolbarId>,
    position: Position,
    autoHideEnabled: bool,
    autoHideTimeout: Int32,
    opacity: real,
    dragging: bool,
    dragOffset: Point,
    topLeft: Point,
    visible: bool,
    timer: Timer,
    fade: Fade,
    finishHandlers: nat)

  const DefaultTimeout: Int32 := 3000

  /** The freshly constructed widget, placed by the window system at
      `origin` and not yet shown. */
  function Init(origin: Point): (t: Toolbar)
    ensures t.toolbar == None && t.position == TopCenter
    ensures !t.autoHideEnabled && t.autoHideTimeout == 3000
    ensures t.opacity == 1.0 && !t.dragging
    ensures t.timer == Stopped && t.fade == Idle && t.finishHandlers == 0
    ensures Valid(t)
  {
    Toolbar(None, TopCenter, false, DefaultTimeout, 1.0, false, Point(0, 0), origin,
            false, Stopped, Idle, 0)
  }

  /** The facts every reachable state keeps: opacity within [0, 1], the
      animation heading for fully opaque or fully transparent, and a timer
      that only runs while auto-hide is on, with an accepted interval. */
  predicate Valid(t: Toolbar) {
    && 0.0 <= t.opacity <= 1.0
    && (t.fade.Fading? ==> t.fade.endValue == 0.0 || t.fade.endValue == 1.0)
    && (t.timer.Running? ==> t.autoHideEnabled && AcceptedInterval(t.timer.interval))
  }

  // ---- stored properties ----

  function ClampOpacity(x: real): (r: real)
    ensures 0.0 <= r <= 1.0
    ensures 0.0 <= x <= 1.0 ==> r == x
    ensures x < 0.0 ==> r == 0.0
    ensures x > 1.0 ==> r == 1.0
  {
    if x < 0.0 then 0.0 else if 1.0 < x then 1.0 else x
  }

  function SetOpacity(t: Toolbar, x: real): (r: Toolbar)
    ensures 0.0 <= r.opacity <= 1.0
    ensures r.opacity == (if x < 0.0 then 0.0 else if x > 1.0 then 1.0 else x)
    ensures r == t.(opacity := r.opacity)
  {
    t.(opacity := ClampOpacity(x))
  }

  function SetToolbar(t: Toolbar, bar: Option<ToolbarId>): (r: Toolbar)
    ensures r.toolbar == bar
    ensures r == t.(toolbar := bar)
  {
    if t.toolbar == bar then t
    else t.(toolbar := bar)
  }

  function SetAutoHideTimeout(t: Toolbar, ms: Int32): (r: Toolbar)
    ensures r.autoHideTimeout == ms
    ensures r.timer == t.timer
    ensures r == t.(autoHideTimeout := ms)
  {
    t.(autoHideTimeout := ms)
  }

  // ---- placement ----

  /** Snap to the anchor when there is a parent; without one nothing moves. */
  function UpdatePosition(env: Env, t: Toolbar): (r: Toolbar)
    ensures env.parent.None? ==> r == t
    ensures env.parent.Some? ==> r.topLeft == AnchorPoint(t.position, env.parent.value, env.sizeHint)
    ensures r == t.(topLeft := r.topLeft)
  {
    match env.parent
    case None => t
    case Some(parentSize) => t.(topLeft := AnchorPoint(t.position, parentSize, env.sizeHint))
  }

  function SetPosition(env: Env, t: Toolbar, p: Position): (r: Toolbar)
    ensures r.position == p
    ensures env.parent.None? ==> r.topLeft == t.topLeft
    ensures env.parent.Some? ==> r.topLeft == AnchorPoint(p, env.parent.value, env.sizeHint)
    ensures r == t.(position := p, topLeft := r.topLeft)
  {
    UpdatePosition(env, t.(position := p))
  }

  function Resize(env: Env, t: Toolbar): (r: Toolbar)
    ensures env.parent.None? ==> r == t
    ensures env.parent.Some? ==> r.topLeft == AnchorPoint(t.position, env.parent.value, env.sizeHint)
    ensures r == t.(topLeft := r.topLeft)
  {
    UpdatePosition(env, t)
  }

  // ---- auto-hide timer ----

  /** The toolkit's `start(ms)`: a running timer is stopped first, and the
      timer then runs only if the interval is accepted. */
  function StartTimer(ms: Int32): (timer: Timer)
    ensures timer.Running? <==> AcceptedInterval(ms)
    ensures timer.Running? ==> timer.interval == ms
  {
    if AcceptedInterval(ms) then Running(ms) else Stopped
  }

  /** (Re)start the timer with the current timeout, if auto-hide is on. */
  function ResetAutoHideTimer(t: Toolbar): (r: Toolbar)
    ensures t.autoHideEnabled ==> r.timer == StartTimer(t.autoHideTimeout)
    ensures !t.autoHideEnabled ==> r == t
    ensures r == t.(timer := r.timer)
  {
    if t.autoHideEnabled then t.(timer := StartTimer(t.autoHideTimeout)) else t
  }

  function SetAutoHideEnabled(t: Toolbar, enabled: bool): (r: Toolbar)
    ensures r.autoHideEnabled == enabled
    ensures enabled ==> r.timer == StartTimer(t.autoHideTimeout)
    ensures !enabled ==> r.timer == Stopped
    ensures r == t.(autoHideEnabled := enabled, timer := r.timer)
  {
    var t1 := t.(autoHideEnabled := enabled);
    if enabled then ResetAutoHideTimer(t1) else t1.(timer := Stopped)
  }

  /** The show handler: snap to the anchor, then restart the timer when
      auto-hide is on. */
  function OnShow(env: Env, t: Toolbar): (r: Toolbar)
    ensures env.parent.Some? ==> r.topLeft == AnchorPoint(t.position, env.parent.value, env.sizeHint)
    ensures env.parent.None? ==> r.topLeft == t.topLeft
    ensures t.autoHideEnabled ==> r.timer == StartTimer(t.autoHideTimeout)
    ensures !t.autoHideEnabled ==> r.timer == t.timer
    ensures r == t.(topLeft := r.topLeft, timer := r.timer)
  {
    var t1 := UpdatePosition(env, t);
    if t1.autoHideEnabled then ResetAutoHideTimer(t1) else t1
  }

  /** The toolkit's `show()`: a hidden widget becomes visible and receives
      the show event; showing a visible widget does nothing. */
  function Show(env: Env, t: Toolbar): (r: Toolbar)
    ensures r.visible
    ensures t.visible ==> r == t
    ensures !t.visible ==> r == OnShow(env, t).(visible := true)
  {
    if t.visible then t else OnShow(env, t.(visible := true))
  }

  /** The toolkit's `hide()`. */
  function Hide(t: Toolbar): (r: Toolbar)
    ensures !r.visible && r == t.(visible := false)
  {
    t.(visible := false)
  }

  // ---- fade animation ----

  /** Show, then restart the animation toward fully opaque. As written the
      hide-on-finish handlers connected by an earlier `HideAnimated` stay
      connected; the corrected build drops them. */
  function ShowAnimated(build: Build, env: Env, t: Toolbar): (r: Toolbar)
    ensures r.visible && r.fade == Fading(1.0)
    ensures build == AsWritten ==> r.finishHandlers == t.finishHandlers
    ensures build == Corrected ==> r.finishHandlers == 0
    ensures r == Show(env, t).(fade := r.fade, finishHandlers := r.finishHandlers)
  {
    var t1 := Show(env, t);
    t1.(fade := Fading(1.0),
        finishHandlers := if build == AsWritten then t1.finishHandlers else 0)
  }

  /** Restart the animation toward fully transparent and connect one more
      handler that hides the widget when it finishes. */
  function HideAnimated(t: Toolbar): (r: Toolbar)
    ensures r.fade == Fading(0.0) && r.finishHandlers == t.finishHandlers + 1
    ensures r.visible == t.visible && r.opacity == t.opacity
    ensures r == t.(fade := r.fade, finishHandlers := r.finishHandlers)
  {
    t.(fade := Fading(0.0), finishHandlers := t.finishHandlers + 1)
  }

  /** An animation frame writes an interpolated value through the opacity
      property, so it is clamped like any other write. */
  function FadeFrame(t: Toolbar, value: real): (r: Toolbar)
    ensures t.fade.Idle? ==> r == t
    ensures t.fade.Fading? ==> r == SetOpacity(t, value)
  {
    if t.fade.Fading? then SetOpacity(t, value) else t
  }

  /** The animation reaches its end value and emits `finished`; if any
      hide-on-finish handler is connected the widget hides and every such
      handler is disconnected. */
  function FadeFinished(t: Toolbar): (r: Toolbar)
    ensures t.fade.Idle? ==> r == t
    ensures t.fade.Fading? ==> r.fade == Idle && r.opacity == ClampOpacity(t.fade.endValue)
    ensures t.fade.Fading? ==> r.finishHandlers == 0
    ensures t.fade.Fading? ==> (r.visible <==> t.visible && t.finishHandlers == 0)
    ensures t.fade.Fading? ==>
              r == t.(opacity := r.opacity, fade := Idle, visible := r.visible, finishHandlers := 0)
  {
    match t.fade
    case Idle => t
    case Fading(endValue) =>
      var t1 := SetOpacity(t, endValue).(fade := Idle);
      if t1.finishHandlers > 0 then Hide(t1).(finishHandlers := 0) else t1
  }

  /** The single-shot timer expires: it stops and the widget fades out. */
  function TimerTimeout(t: Toolbar): (r: Toolbar)
    ensures t.timer.Stopped? ==> r == t
    ensures t.timer.Running? ==> r.timer == Stopped && r.fade == Fading(0.0)
    ensures t.timer.Running? ==> r.finishHandlers == t.finishHandlers + 1
    ensures t.timer.Running? ==>
              r == t.(timer := Stopped, fade := Fading(0.0), finishHandlers := t.finishHandlers + 1)
  {
    match t.timer
    case Stopped => t
    case Running(_) => HideAnimated(t.(timer := Stopped))
  }

  // ---- pointer ----

  /** With auto-hide on, entering stops the timer and fades in when not
      fully opaque. */
  function Enter(build: Build, env: Env, t: Toolbar): (r: Toolbar)
    ensures !t.autoHideEnabled ==> r == t
    ensures t.autoHideEnabled && t.opacity >= 1.0 ==> r == t.(timer := Stopped)
    ensures t.autoHideEnabled && t.opacity < 1.0 ==>
              r == ShowAnimated(build, env, t.(timer := Stopped))
    ensures t.autoHideEnabled && t.visible ==> r.timer == Stopped
  {
    if t.autoHideEnabled then
      var t1 := t.(timer := Stopped);
      if t1.opacity < 1.0 then ShowAnimated(build, env, t1) else t1
    else t
  }

  /** With auto-hide on, leaving restarts the timer. */
  function Leave(t: Toolbar): (r: Toolbar)
    ensures !t.autoHideEnabled ==> r == t
    ensures t.autoHideEnabled ==> r == t.(timer := StartTimer(t.autoHideTimeout))
  {
    if t.autoHideEnabled then ResetAutoHideTimer(t) else t
  }

  /** A left press starts a drag and records where in the window it was
      grabbed; other buttons are ignored. */
  function MousePress(t: Toolbar, button: MouseButton, global: Point): (r: Toolbar)
    ensures button != LeftButton ==> r == t
    ensures button == LeftButton ==> r.dragging && r.topLeft.Plus(r.dragOffset) == global
    ensures button == LeftButton ==> r == t.(dragging := true, dragOffset := r.dragOffset)
  {
    if button == LeftButton then t.(dragging := true, dragOffset := global.Minus(t.topLeft))
    else t
  }

  /** While dragging, the window follows the pointer keeping the grab
      offset; otherwise a move does nothing. */
  function MouseMove(t: Toolbar, global: Point): (r: Toolbar)
    ensures !t.dragging ==> r == t
    ensures t.dragging ==> r.topLeft.Plus(t.dragOffset) == global
    ensures t.dragging ==> r == t.(topLeft := r.topLeft)
  {
    if t.dragging then t.(topLeft := global.Minus(t.dragOffset)) else t
  }

  /** Only releasing the left button ends a drag. */
  function MouseRelease(t: Toolbar, button: MouseButton): (r: Toolbar)
    ensures button == LeftButton ==> r == t.(dragging := false)
    ensures button != LeftButton ==> r == t
  {
    if button == LeftButton then t.(dragging := false) else t
  }
}
