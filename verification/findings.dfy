/** A fade-in that interrupts a fade-out still hides the toolbar.
    `HideAnimated` connects a handler to the animation's `finished` signal
    that hides the widget; only that handler itself disconnects it, and
    `ShowAnimated` restarts the animation without disconnecting it. So when
    the pointer re-enters during an auto-hide fade-out, the toolbar fades
    back to fully opaque and then disappears. The corrected build drops the
    handlers in `ShowAnimated`. */
module Findings {
  import opened Geometry
  import opened Anchor
  import opened GlassToolbar
  import opened ToolbarTraces

  /** As written: whenever a hide is pending, an animated show followed by
      the end of its fade leaves a fully opaque but hidden toolbar. */
  lemma AsWrittenFadeInStillHides(env: Env, t: Toolbar)
    requires t.finishHandlers > 0
    ensures var r := FadeFinished(ShowAnimated(AsWritten, env, t));
            !r.visible && r.opacity == 1.0
  {
  }

  /** The concrete scenario from a fresh toolbar: auto-hide on, shown, the
      timer expires, the fade-out is half way, the pointer enters, the
      fade-in completes. As written the toolbar ends hidden; corrected it
      stays shown. */
  function Scenario(env: Env): seq<Input> {
    [ Input(env, SetAutoHideEnabledCalled(true)),
      Input(env, ShowCalled),
      Input(env, TimerExpired),
      Input(env, FadeFrameArrived(0.5)),
      Input(env, PointerEntered),
      Input(env, FadeEnded) ]
  }

  /** The scenario up to the pointer entering: shown, auto-hide on, half
      way through a fade-out with one hide handler connected. */
  lemma ScenarioPrefix(build: Build, env: Env, origin: Point)
    ensures var s := Run(build, Init(origin), Scenario(env)[..4]);
            && s.visible && s.autoHideEnabled && s.opacity == 0.5
            && s.fade == Fading(0.0) && s.finishHandlers == 1
  {
    var trace := Scenario(env);
    var s0 := Init(origin);
    var s1 := SetAutoHideEnabled(s0, true);
    var s2 := Show(env, s1);
    assert s2.visible && s2.timer.Running? && s2.finishHandlers == 0 && s2.opacity == 1.0;
    var s3 := TimerTimeout(s2);
    assert s3.fade == Fading(0.0) && s3.finishHandlers == 1 && s3.visible;
    RunThree(build, s0, trace[0], trace[1], trace[2]);
    assert trace[..3] == [trace[0], trace[1], trace[2]];
    RunSnoc(build, s0, trace[..3], trace[3]);
    assert trace[..3] + [trace[3]] == trace[..4];
  }

  lemma ReEnteringDuringFadeOutHides(env: Env, origin: Point)
    ensures var r := Run(AsWritten, Init(origin), Scenario(env));
            !r.visible && r.opacity == 1.0
    ensures var r := Run(Corrected, Init(origin), Scenario(env));
            r.visible && r.opacity == 1.0
  {
    var trace := Scenario(env);
    ScenarioPrefix(AsWritten, env, origin);
    ScenarioPrefix(Corrected, env, origin);
    RunSnoc(AsWritten, Init(origin), trace[..4], trace[4]);
    RunSnoc(AsWritten, Init(origin), trace[..5], trace[5]);
    RunSnoc(Corrected, Init(origin), trace[..4], trace[4]);
    RunSnoc(Corrected, Init(origin), trace[..5], trace[5]);
    assert trace[..4] + [trace[4]] == trace[..5];
    assert trace[..5] + [trace[5]] == trace;
  }

  /** In both builds, an entry that arrives during a fade-out before any
      frame has lowered the opacity starts no fade-in, so it cancels
      nothing: the fade-out completes and hides the toolbar. */
  lemma EnterAtFullOpacityKeepsFadeOut(build: Build, env: Env, t: Toolbar)
    requires t.autoHideEnabled && t.opacity == 1.0
    requires t.fade == Fading(0.0) && t.finishHandlers > 0
    ensures var r := FadeFinished(Enter(build, env, t));
            !r.visible && r.opacity == 0.0 && r.timer == Stopped
  {
  }

  /** The corrected invariant: a hide-on-finish handler is connected only
      while the animation is fading out. */
  predicate HandlersOnlyWhileFadingOut(t: Toolbar) {
    t.finishHandlers > 0 ==> t.fade == Fading(0.0)
  }

  lemma CorrectedStepKeepsHandlersForFadeOut(t: Toolbar, input: Input)
    requires HandlersOnlyWhileFadingOut(t)
    ensures HandlersOnlyWhileFadingOut(Step(Corrected, t, input))
  {
    // The events that touch the animation or its handlers, each on its own.
    match input.event
    case ShowAnimatedCalled =>
    case HideAnimatedCalled =>
    case PointerEntered =>
    case TimerExpired =>
    case FadeEnded =>
    case _ =>
  }

  lemma {:induction false} CorrectedKeepsHandlersForFadeOut(t: Toolbar, trace: seq<Input>)
    requires HandlersOnlyWhileFadingOut(t)
    ensures HandlersOnlyWhileFadingOut(Run(Corrected, t, trace))
    decreases |trace|
  {
    if |trace| > 0 {
      CorrectedKeepsHandlersForFadeOut(t, trace[..|trace| - 1]);
      CorrectedStepKeepsHandlersForFadeOut(Run(Corrected, t, trace[..|trace| - 1]), trace[|trace| - 1]);
    }
  }

  /** Corrected: in every state reachable from a fresh toolbar, a fade-in
      that completes leaves the toolbar fully opaque and exactly as visible
      as it was. */
  lemma CorrectedFadeInNeverHides(origin: Point, trace: seq<Input>)
    ensures var s := Run(Corrected, Init(origin), trace);
            s.fade == Fading(1.0) ==>
              FadeFinished(s).visible == s.visible && FadeFinished(s).opacity == 1.0
  {
    CorrectedKeepsHandlersForFadeOut(Init(origin), trace);
  }
}
