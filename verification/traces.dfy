/** The toolbar driven by a sequential trace of owner calls and toolkit
    events, and the properties that hold of every such trace. */
module ToolbarTraces {
  import opened Geometry
  import opened Anchor
  import opened GlassToolbar

  /** One owner call or one event delivered by the toolkit's event loop. */
  datatype Event =
    | SetToolbarCalled(bar: Option<ToolbarId>)
    | SetPositionCalled(pos: Position)
    | SetAutoHideEnabledCalled(enabled: bool)
    | SetAutoHideTimeoutCalled(ms: Int32)
    | SetOpacityCalled(value: real)
    | ShowAnimatedCalled
    | HideAnimatedCalled
    | ShowCalled
    | HideCalled
    | Pressed(button: MouseButton, at: Point)
    | Moved(to: Point)
    | Released(releasedButton: MouseButton)
    | PointerEntered
    | PointerLeft
    | Resized
    | TimerExpired
    | FadeFrameArrived(frameValue: real)
    | FadeEnded

  /** An event together with the geometry the toolkit reports at that moment. */
  datatype Input = Input(env: Env, event: Event)

  function Step(build: Build, t: Toolbar, input: Input): (r: Toolbar)
    ensures r.toolbar == (if input.event.SetToolbarCalled? then input.event.bar else t.toolbar)
    ensures r.position == (if input.event.SetPositionCalled? then input.event.pos else t.position)
    ensures r.autoHideEnabled ==
              (if input.event.SetAutoHideEnabledCalled? then input.event.enabled else t.autoHideEnabled)
    ensures r.autoHideTimeout ==
              (if input.event.SetAutoHideTimeoutCalled? then input.event.ms else t.autoHideTimeout)
    ensures Valid(t) ==> Valid(r)
  {
    var env := input.env;
    match input.event
    case SetToolbarCalled(bar) => SetToolbar(t, bar)
    case SetPositionCalled(pos) => SetPosition(env, t, pos)
    case SetAutoHideEnabledCalled(enabled) => SetAutoHideEnabled(t, enabled)
    case SetAutoHideTimeoutCalled(ms) => SetAutoHideTimeout(t, ms)
    case SetOpacityCalled(value) => SetOpacity(t, value)
    case ShowAnimatedCalled => ShowAnimated(build, env, t)
    case HideAnimatedCalled => HideAnimated(t)
    case ShowCalled => Show(env, t)
    case HideCalled => Hide(t)
    case Pressed(button, at) => MousePress(t, button, at)
    case Moved(to) => MouseMove(t, to)
    case Released(button) => MouseRelease(t, button)
    case PointerEntered => Enter(build, env, t)
    case PointerLeft => Leave(t)
    case Resized => Resize(env, t)
    case TimerExpired => TimerTimeout(t)
    case FadeFrameArrived(value) => FadeFrame(t, value)
    case FadeEnded => FadeFinished(t)
  }

  /** The state after delivering a whole trace, oldest input first. */
  function Run(build: Build, t: Toolbar, trace: seq<Input>): Toolbar
    decreases |trace|
  {
    if |trace| == 0 then t
    else Step(build, Run(build, t, trace[..|trace| - 1]), trace[|trace| - 1])
  }

  /** Delivering one more input is one more step. */
  lemma RunSnoc(build: Build, t: Toolbar, trace: seq<Input>, last: Input)
    ensures Run(build, t, trace + [last]) == Step(build, Run(build, t, trace), last)
  {
  }

  /** Short traces unfold into nested steps. */
  lemma RunTwo(build: Build, t: Toolbar, a: Input, b: Input)
    ensures Run(build, t, [a, b]) == Step(build, Step(build, t, a), b)
  {
    RunSnoc(build, t, [], a);
    RunSnoc(build, t, [a], b);
    assert [] + [a] == [a] && [a] + [b] == [a, b];
  }

  lemma RunThree(build: Build, t: Toolbar, a: Input, b: Input, c: Input)
    ensures Run(build, t, [a, b, c]) == Step(build, Step(build, Step(build, t, a), b), c)
  {
    RunTwo(build, t, a, b);
    RunSnoc(build, t, [a, b], c);
    assert [a, b] + [c] == [a, b, c];
  }

  /** Every reachable state is valid; in particular `opacity()` never
      reports a value outside [0, 1]. */
  lemma {:induction false} RunKeepsValid(build: Build, t: Toolbar, trace: seq<Input>)
    requires Valid(t)
    ensures Valid(Run(build, t, trace))
    ensures 0.0 <= Run(build, t, trace).opacity <= 1.0
    decreases |trace|
  {
    if |trace| > 0 {
      RunKeepsValid(build, t, trace[..|trace| - 1]);
    }
  }

  // ---- getters report the last value set ----

  /** The value carried by the most recent event `pick` selects, or
      `initial` when there is none. An independent reference for the
      getters. */
  function LastSet<T>(trace: seq<Input>, pick: Event -> Option<T>, initial: T): T
    decreases |trace|
  {
    if |trace| == 0 then initial
    else match pick(trace[|trace| - 1].event)
      case Some(v) => v
      case None => LastSet(trace[..|trace| - 1], pick, initial)
  }

  function ToolbarSet(e: Event): Option<Option<ToolbarId>> {
    if e.SetToolbarCalled? then Some(e.bar) else None
  }

  function PositionSet(e: Event): Option<Position> {
    if e.SetPositionCalled? then Some(e.pos) else None
  }

  function AutoHideSet(e: Event): Option<bool> {
    if e.SetAutoHideEnabledCalled? then Some(e.enabled) else None
  }

  function TimeoutSet(e: Event): Option<Int32> {
    if e.SetAutoHideTimeoutCalled? then Some(e.ms) else None
  }

  /** `getToolbar`, `getPosition`, `isAutoHideEnabled` and
      `getAutoHideTimeout` return the value most recently passed to the
      matching setter, whatever else happened in between. */
  lemma {:induction false} GettersReportLastSet(build: Build, t: Toolbar, trace: seq<Input>)
    ensures Run(build, t, trace).toolbar == LastSet(trace, ToolbarSet, t.toolbar)
    ensures Run(build, t, trace).position == LastSet(trace, PositionSet, t.position)
    ensures Run(build, t, trace).autoHideEnabled == LastSet(trace, AutoHideSet, t.autoHideEnabled)
    ensures Run(build, t, trace).autoHideTimeout == LastSet(trace, TimeoutSet, t.autoHideTimeout)
    decreases |trace|
  {
    if |trace| > 0 {
      GettersReportLastSet(build, t, trace[..|trace| - 1]);
    }
  }

  // ---- auto-hide switched off stays off ----

  predicate ReEnables(e: Event) {
    e.SetAutoHideEnabledCalled? && e.enabled
  }

  predicate RequestsHide(e: Event) {
    e.HideAnimatedCalled? || e.HideCalled?
  }

  /** Quiet: auto-hide off, the timer stopped and no hide pending. */
  predicate Quiet(t: Toolbar) {
    !t.autoHideEnabled && t.timer == Stopped && t.finishHandlers == 0
  }

  /** One event that neither re-enables auto-hide nor asks for a hide keeps
      a quiet toolbar quiet and does not hide it. */
  lemma QuietStep(build: Build, t: Toolbar, input: Input)
    requires Quiet(t) && !ReEnables(input.event) && !RequestsHide(input.event)
    ensures Quiet(Step(build, t, input))
    ensures t.visible ==> Step(build, t, input).visible
  {
    var r := Step(build, t, input);
    match input.event
    case FadeEnded =>
      assert t.finishHandlers == 0;
    case PointerEntered =>
      assert r == t;
    case _ =>
  }

  /** Once auto-hide is off and no hide is pending, no trace that neither
      re-enables auto-hide nor asks for a hide can start the timer, connect
      a hide-on-finish handler or hide a visible toolbar. */
  lemma {:induction false} DisabledStaysQuiet(build: Build, t: Toolbar, trace: seq<Input>)
    requires Quiet(t)
    requires forall i :: 0 <= i < |trace| ==> !ReEnables(trace[i].event) && !RequestsHide(trace[i].event)
    ensures Quiet(Run(build, t, trace))
    ensures t.visible ==> Run(build, t, trace).visible
    decreases |trace|
  {
    if |trace| > 0 {
      DisabledStaysQuiet(build, t, trace[..|trace| - 1]);
      QuietStep(build, Run(build, t, trace[..|trace| - 1]), trace[|trace| - 1]);
    }
  }

  /** One event that does not re-enable auto-hide leaves it off and the
      timer stopped. */
  lemma TimerStoppedStep(build: Build, t: Toolbar, input: Input)
    requires !t.autoHideEnabled && t.timer == Stopped && !ReEnables(input.event)
    ensures !Step(build, t, input).autoHideEnabled && Step(build, t, input).timer == Stopped
  {
    match input.event
    case PointerEntered => assert Step(build, t, input) == t;
    case PointerLeft => assert Step(build, t, input) == t;
    case _ =>
  }

  /** With auto-hide off and the timer stopped, nothing but re-enabling
      auto-hide can start the timer again: every other handler that starts
      it checks the flag first. */
  lemma {:induction false} TimerStaysStopped(build: Build, t: Toolbar, trace: seq<Input>)
    requires !t.autoHideEnabled && t.timer == Stopped
    requires forall i :: 0 <= i < |trace| ==> !ReEnables(trace[i].event)
    ensures !Run(build, t, trace).autoHideEnabled && Run(build, t, trace).timer == Stopped
    decreases |trace|
  {
    if |trace| > 0 {
      TimerStaysStopped(build, t, trace[..|trace| - 1]);
      TimerStoppedStep(build, Run(build, t, trace[..|trace| - 1]), trace[|trace| - 1]);
    }
  }

  /** Disabling auto-hide stops the timer in any state, and until auto-hide
      is re-enabled the timer stays stopped, so an expiry starts no
      fade-out. */
  lemma DisablingStopsPendingHide(build: Build, t: Toolbar, trace: seq<Input>)
    requires forall i :: 0 <= i < |trace| ==> !ReEnables(trace[i].event)
    ensures var r := Run(build, SetAutoHideEnabled(t, false), trace);
            r.timer == Stopped && TimerTimeout(r) == r
  {
    TimerStaysStopped(build, SetAutoHideEnabled(t, false), trace);
  }

  /** Disabling auto-hide stops only the timer: a fade-out that has already
      begun is not cancelled and still hides the toolbar when it ends. */
  lemma DisablingDoesNotCancelFadeOut(t: Toolbar)
    requires t.fade == Fading(0.0) && t.finishHandlers > 0
    ensures var r := FadeFinished(SetAutoHideEnabled(t, false));
            !r.visible && r.opacity == 0.0 && r.timer == Stopped
  {
  }

  /** A negative timeout does not stop a timer that is already running:
      that timer still fires once and its fade-out hides the toolbar, while
      every later start, such as the one on pointer exit, leaves the timer
      stopped. */
  lemma NegativeTimeoutFiresOnce(t: Toolbar, ms: Int32)
    requires t.timer.Running? && ms < 0
    ensures SetAutoHideTimeout(t, ms).timer == t.timer
    ensures var r := FadeFinished(TimerTimeout(SetAutoHideTimeout(t, ms)));
            !r.visible && r.opacity == 0.0
    ensures Leave(SetAutoHideTimeout(t, ms)).timer == (if t.autoHideEnabled then Stopped else t.timer)
  {
  }

  // ---- dragging ----

  /** Press the left button at `p`, move to `q`, release: the window has
      moved by exactly `q - p` and no drag is left active. */
  lemma DragMovesByPointerDelta(build: Build, env: Env, t: Toolbar, p: Point, q: Point)
    ensures var r := Run(build, t, [Input(env, Pressed(LeftButton, p)), Input(env, Moved(q)),
                                    Input(env, Released(LeftButton))]);
            r.topLeft == t.topLeft.Plus(q.Minus(p)) && !r.dragging
  {
    RunThree(build, t, Input(env, Pressed(LeftButton, p)), Input(env, Moved(q)), Input(env, Released(LeftButton)));
  }

  /** A press with any other button starts no drag, so a following move
      leaves the window where it was. */
  lemma NonLeftPressDoesNotDrag(build: Build, env: Env, t: Toolbar, b: MouseButton, p: Point, q: Point)
    requires b != LeftButton && !t.dragging
    ensures var r := Run(build, t, [Input(env, Pressed(b, p)), Input(env, Moved(q))]);
            r == t
  {
    RunTwo(build, t, Input(env, Pressed(b, p)), Input(env, Moved(q)));
  }

  /** Releasing another button in the middle of a drag keeps it going:
      the next move still carries the window. */
  lemma NonLeftReleaseKeepsDragging(build: Build, env: Env, t: Toolbar, b: MouseButton, p: Point, q: Point)
    requires b != LeftButton
    ensures var r := Run(build, t, [Input(env, Pressed(LeftButton, p)), Input(env, Released(b)),
                                    Input(env, Moved(q))]);
            r.dragging && r.topLeft == t.topLeft.Plus(q.Minus(p))
  {
    RunThree(build, t, Input(env, Pressed(LeftButton, p)), Input(env, Released(b)), Input(env, Moved(q)));
  }

  /** Dragging is not bounded by the parent or the screen: any top-left
      point whatsoever can be reached by one press and one move. */
  lemma DragIsUnbounded(build: Build, env: Env, t: Toolbar, p: Point, target: Point)
    ensures var q := target.Plus(p.Minus(t.topLeft));
            Run(build, t, [Input(env, Pressed(LeftButton, p)), Input(env, Moved(q))]).topLeft == target
  {
    var q := target.Plus(p.Minus(t.topLeft));
    RunTwo(build, t, Input(env, Pressed(LeftButton, p)), Input(env, Moved(q)));
  }

  /** A resize after a drag snaps back to the anchor: the drag displacement
      is lost. */
  lemma ResizeDiscardsDrag(build: Build, env: Env, t: Toolbar, p: Point, q: Point)
    requires env.parent.Some?
    ensures var r := Run(build, t, [Input(env, Pressed(LeftButton, p)), Input(env, Moved(q)),
                                    Input(env, Resized)]);
            r.topLeft == AnchorPoint(t.position, env.parent.value, env.sizeHint)
  {
    RunThree(build, t, Input(env, Pressed(LeftButton, p)), Input(env, Moved(q)), Input(env, Resized));
  }

  /** Showing a hidden toolbar after a drag snaps it back to the anchor as
      well, and restarts the timer when auto-hide is on. */
  lemma ShowDiscardsDrag(build: Build, env: Env, t: Toolbar, p: Point, q: Point)
    requires env.parent.Some? && !t.visible
    ensures var r := Run(build, t, [Input(env, Pressed(LeftButton, p)), Input(env, Moved(q)),
                                    Input(env, ShowCalled)]);
            && r.topLeft == AnchorPoint(t.position, env.parent.value, env.sizeHint)
            && r.visible
            && (t.autoHideEnabled ==> r.timer == StartTimer(t.autoHideTimeout))
  {
    RunThree(build, t, Input(env, Pressed(LeftButton, p)), Input(env, Moved(q)), Input(env, ShowCalled));
  }

  // ---- the two builds differ only in the fade-in path ----

  /** The events that may start a fade-in: an animated show always does,
      a pointer entry only below full opacity. */
  predicate MayFadeIn(e: Event) {
    e.ShowAnimatedCalled? || e.PointerEntered?
  }

  /** Traces without an animated show or a pointer entry behave the same
      in both builds. */
  lemma {:induction false} BuildsAgreeWithoutFadeIn(t: Toolbar, trace: seq<Input>)
    requires forall i :: 0 <= i < |trace| ==> !MayFadeIn(trace[i].event)
    ensures Run(AsWritten, t, trace) == Run(Corrected, t, trace)
    decreases |trace|
  {
    if |trace| > 0 {
      BuildsAgreeWithoutFadeIn(t, trace[..|trace| - 1]);
    }
  }
}
