/**
 * The full-screen fade curtain `AlphaScreenCurtain`: a canvas that is
 * enabled or not, a canvas-group alpha, the `IsCurtainShown` flag and a fade
 * slot holding the kind of the fade started last. Only the discrete state is
 * modelled; one frame of the alpha interpolation is a write of an arbitrary
 * alpha value, supplied by the caller in place of the eased lerp.
 *
 * Every fade is awaited by a caller's coroutine (`yield return ShowCurtain()`),
 * so the fade's tail, `OnCurtainShown` or `OnCurtainHidden`, runs when that
 * caller's wait ends. `StopFade` cannot cancel it: `StopAllCoroutines` only
 * stops coroutines the curtain itself started. The tail therefore belongs to
 * the awaited fade, not to the slot.
 */
module ScreenCurtain {

  /** The fade in flight: none, one towards alpha 1 (show) or one towards
      alpha 0 (hide). */
  datatype Fade = NoFade | FadingIn | FadingOut

  datatype Curtain = Curtain(shown: bool, canvasEnabled: bool, alpha: real, fade: Fade)

  /** `StopFade`: empties the fade slot. A fade already awaited by a caller
      still runs its tail when that wait ends (see `Ended`). */
  function Stopped(c: Curtain): (r: Curtain)
    ensures r.fade == NoFade
    ensures r.shown == c.shown && r.canvasEnabled == c.canvasEnabled && r.alpha == c.alpha
  {
    c.(fade := NoFade)
  }

  /** `OnCurtainShown`: fully opaque, canvas on, flag set. */
  function OnShown(c: Curtain): (r: Curtain)
    ensures r.shown && r.canvasEnabled && r.alpha == 1.0
    ensures r.fade == c.fade
  {
    c.(alpha := 1.0, canvasEnabled := true, shown := true)
  }

  /** `OnCurtainHidden`: canvas off, flag cleared; the alpha is not touched. */
  function OnHidden(c: Curtain): (r: Curtain)
    ensures !r.shown && !r.canvasEnabled
    ensures r.alpha == c.alpha && r.fade == c.fade
  {
    c.(canvasEnabled := false, shown := false)
  }

  /** `ShowCurtainImmediate`: shown with an empty fade slot. A fade a caller
      already awaits is not stopped; its tail still runs. */
  function ShowImmediate(c: Curtain): (r: Curtain)
    ensures r == Curtain(true, true, 1.0, NoFade)
  {
    OnShown(Stopped(c))
  }

  /** `HideCurtainImmediate`: hidden with an empty fade slot. A fade a caller
      already awaits is not stopped; its tail still runs. */
  function HideImmediate(c: Curtain): (r: Curtain)
    ensures r == Curtain(false, false, c.alpha, NoFade)
  {
    OnHidden(Stopped(c))
  }

  /** The part of `ShowCurtain` before its first frame: the fade slot is
      emptied and then takes the fade towards 1, and the canvas is enabled.
      A fade a caller already awaits is not stopped; its tail still runs
      (`EarlierCallerFadeStillLands`). The flag and the alpha are not
      touched yet. */
  function BeginShow(c: Curtain): (r: Curtain)
    ensures r.fade == FadingIn && r.canvasEnabled
    ensures r.shown == c.shown && r.alpha == c.alpha
  {
    Stopped(c).(canvasEnabled := true, fade := FadingIn)
  }

  /** The part of `HideCurtain` before its first frame: as `BeginShow`, with
      the slot taking the fade towards 0; the canvas stays on while fading. */
  function BeginHide(c: Curtain): (r: Curtain)
    ensures r.fade == FadingOut && r.canvasEnabled
    ensures r.shown == c.shown && r.alpha == c.alpha
  {
    Stopped(c).(canvasEnabled := true, fade := FadingOut)
  }

  /** One frame of `LerpAlpha`: the fade in the slot writes the alpha and
      nothing else; with an empty slot, a frame changes nothing. */
  function OneFrame(c: Curtain, a: real): (r: Curtain)
    ensures r.shown == c.shown && r.canvasEnabled == c.canvasEnabled && r.fade == c.fade
    ensures c.fade != NoFade ==> r.alpha == a
    ensures c.fade == NoFade ==> r == c
  {
    if c.fade == NoFade then c else c.(alpha := a)
  }

  /** A run of frames, one alpha value per frame. */
  function Frames(c: Curtain, alphas: seq<real>): Curtain
  {
    if alphas == [] then c else OneFrame(Frames(c, alphas[..|alphas| - 1]), alphas[|alphas| - 1])
  }

  /** The end of an awaited fade of kind `f`: the caller's wait is over and the
      fade's tail runs, `OnCurtainShown` after a show and `OnCurtainHidden`
      after a hide, whatever fade the slot holds by then. The slot is emptied
      when it holds a fade of that kind and is left alone otherwise. */
  function Ended(c: Curtain, f: Fade): (r: Curtain)
    ensures f == FadingIn ==> r.shown && r.canvasEnabled && r.alpha == 1.0
    ensures f == FadingOut ==> !r.shown && !r.canvasEnabled && r.alpha == c.alpha
    ensures f == NoFade ==> r == c
    ensures r.fade == if c.fade == f then NoFade else c.fade
  {
    var slot := if c.fade == f then NoFade else c.fade;
    match f
    case NoFade => c
    case FadingIn => OnShown(c).(fade := slot)
    case FadingOut => OnHidden(c).(fade := slot)
  }

  /** The end of the fade in the slot, when no other fade's tail intervenes:
      after it no fade is running. */
  function Finish(c: Curtain): (r: Curtain)
    ensures r.fade == NoFade
    ensures c.fade == FadingIn ==> r.shown && r.canvasEnabled && r.alpha == 1.0
    ensures c.fade == FadingOut ==> !r.shown && !r.canvasEnabled && r.alpha == c.alpha
    ensures c.fade == NoFade ==> r == c
  {
    Ended(c, c.fade)
  }

  /** The alpha after a run of frames of a running fade: the last frame's
      value, or the starting alpha when there was no frame. */
  function LastAlpha(start: real, alphas: seq<real>): real
  {
    if alphas == [] then start else alphas[|alphas| - 1]
  }

  /** The interpolation never touches `IsCurtainShown`, the canvas or the fade
      in flight; it only moves the alpha. */
  lemma {:induction false} FramesOnlyMoveAlpha(c: Curtain, alphas: seq<real>)
    ensures Frames(c, alphas).shown == c.shown
    ensures Frames(c, alphas).canvasEnabled == c.canvasEnabled
    ensures Frames(c, alphas).fade == c.fade
    ensures c.fade != NoFade ==> Frames(c, alphas).alpha == LastAlpha(c.alpha, alphas)
    ensures c.fade == NoFade ==> Frames(c, alphas) == c
  {
    if alphas != [] {
      FramesOnlyMoveAlpha(c, alphas[..|alphas| - 1]);
    }
  }

  /** An animated show, whatever its frames, ends exactly where an immediate
      show does. While it runs, and no other fade's tail lands, the canvas is
      on and the flag is unchanged. */
  lemma {:induction false} AnimatedShowMatchesImmediate(c: Curtain, alphas: seq<real>)
    ensures Frames(BeginShow(c), alphas).canvasEnabled
    ensures Frames(BeginShow(c), alphas).shown == c.shown
    ensures Finish(Frames(BeginShow(c), alphas)) == ShowImmediate(c)
  {
    FramesOnlyMoveAlpha(BeginShow(c), alphas);
  }

  /** An animated hide keeps the canvas on while fading (unless another
      fade's tail lands) and ends like an immediate hide, except that the
      alpha is the one its last frame wrote. */
  lemma {:induction false} AnimatedHideMatchesImmediate(c: Curtain, alphas: seq<real>)
    ensures Frames(BeginHide(c), alphas).canvasEnabled
    ensures Frames(BeginHide(c), alphas).shown == c.shown
    ensures Finish(Frames(BeginHide(c), alphas))
         == HideImmediate(c).(alpha := LastAlpha(c.alpha, alphas))
  {
    FramesOnlyMoveAlpha(BeginHide(c), alphas);
  }

  /** When only the later fade's tail runs, because the coroutine awaiting
      the earlier one was stopped, the later call decides the outcome: a show
      that interrupts a hide ends shown, and a hide that interrupts a show
      ends hidden. */
  lemma {:induction false} LatestFadeWins(c: Curtain, first: seq<real>, second: seq<real>)
    ensures Finish(Frames(BeginShow(Frames(BeginHide(c), first)), second)) == ShowImmediate(c)
    ensures !Finish(Frames(BeginHide(Frames(BeginShow(c), first)), second)).shown
    ensures !Finish(Frames(BeginHide(Frames(BeginShow(c), first)), second)).canvasEnabled
  {
    FramesOnlyMoveAlpha(BeginHide(c), first);
    FramesOnlyMoveAlpha(BeginShow(Frames(BeginHide(c), first)), second);
    FramesOnlyMoveAlpha(BeginShow(c), first);
    FramesOnlyMoveAlpha(BeginHide(Frames(BeginShow(c), first)), second);
  }

  /**
   * Two fades awaited by two callers, the later one started while the
   * earlier was still running (for instance `Restart`'s show during a scene
   * switch's hide). `StopFade` does not stop the earlier one, and both last
   * `_duration`, so its tail lands while the later fade is still running:
   * an earlier hide turns the canvas off and clears the flag in the middle
   * of the show, and an earlier show turns the canvas on, sets the flag and
   * the alpha to 1 in the middle of the hide. The later tail then decides
   * the end state.
   */
  lemma {:induction false} EarlierCallerFadeStillLands(c: Curtain, first: seq<real>, second: seq<real>)
    ensures var during := Ended(Frames(BeginShow(Frames(BeginHide(c), first)), second), FadingOut);
      && during.fade == FadingIn && !during.canvasEnabled && !during.shown
      && Ended(during, FadingIn) == ShowImmediate(c)
    ensures var during := Ended(Frames(BeginHide(Frames(BeginShow(c), first)), second), FadingIn);
      && during.fade == FadingOut && during.canvasEnabled && during.shown && during.alpha == 1.0
      && !Ended(during, FadingOut).shown && !Ended(during, FadingOut).canvasEnabled
  {
    FramesOnlyMoveAlpha(BeginHide(c), first);
    FramesOnlyMoveAlpha(BeginShow(Frames(BeginHide(c), first)), second);
    FramesOnlyMoveAlpha(BeginShow(c), first);
    FramesOnlyMoveAlpha(BeginHide(Frames(BeginShow(c), first)), second);
  }

  /** An immediate show or hide does not stop a fade a caller awaits either:
      when that wait ends, the fade's tail undoes the immediate call, so an
      immediate show during an awaited hide ends hidden, and an immediate
      hide during an awaited show ends shown. */
  lemma AwaitedFadeOutlivesImmediate(c: Curtain, first: seq<real>)
    ensures Ended(ShowImmediate(Frames(BeginHide(c), first)), FadingOut) == Curtain(false, false, 1.0, NoFade)
    ensures Ended(HideImmediate(Frames(BeginShow(c), first)), FadingIn) == Curtain(true, true, 1.0, NoFade)
  {
  }

  class AlphaScreenCurtain {
    /** `IsCurtainShown`. */
    var isCurtainShown: bool
    /** `_canvas.enabled`. */
    var canvasEnabled: bool
    /** `_canvasGroup.alpha`. */
    var alpha: real
    /** The kind of the fade started last, until it ends or is stopped. */
    var fade: Fade

    function State(): Curtain
      reads this
    {
      Curtain(isCurtainShown, canvasEnabled, alpha, fade)
    }

    /** A freshly instantiated curtain, before `Awake`: the serialized canvas
        and alpha are whatever the prefab holds. */
    constructor (canvasEnabled: bool, alpha: real)
      ensures State() == Curtain(false, canvasEnabled, alpha, NoFade)
    {
      isCurtainShown := false;
      this.canvasEnabled := canvasEnabled;
      this.alpha := alpha;
      fade := NoFade;
    }

    /** Starts hidden. */
    method Awake()
      modifies this
      ensures State() == HideImmediate(old(State()))
      ensures !isCurtainShown && !canvasEnabled && fade == NoFade
    {
      HideCurtainImmediate();
    }

    /** Starts an animated show: the frames follow with `LerpStep`, the end with
        `EndFade(FadingIn)`. */
    method ShowCurtain()
      modifies this
      ensures State() == BeginShow(old(State()))
    {
      StopFade();
      canvasEnabled := true;
      fade := FadingIn;
    }

    method ShowCurtainImmediate()
      modifies this
      ensures State() == ShowImmediate(old(State()))
    {
      StopFade();
      OnCurtainShown();
    }

    /** Starts an animated hide. */
    method HideCurtain()
      modifies this
      ensures State() == BeginHide(old(State()))
    {
      StopFade();
      canvasEnabled := true;
      fade := FadingOut;
    }

    method HideCurtainImmediate()
      modifies this
      ensures State() == HideImmediate(old(State()))
    {
      StopFade();
      OnCurtainHidden();
    }

    method StopFade()
      modifies this`fade
      ensures State() == Stopped(old(State()))
    {
      fade := NoFade;
    }

    method OnCurtainShown()
      modifies this`alpha, this`canvasEnabled, this`isCurtainShown
      ensures State() == OnShown(old(State()))
    {
      alpha := 1.0;
      canvasEnabled := true;
      isCurtainShown := true;
    }

    method OnCurtainHidden()
      modifies this`canvasEnabled, this`isCurtainShown
      ensures State() == OnHidden(old(State()))
    {
      canvasEnabled := false;
      isCurtainShown := false;
    }

    /** One frame of the fade in flight, writing the eased value `a`. */
    method LerpStep(a: real)
      modifies this`alpha
      ensures State() == OneFrame(old(State()), a)
    {
      if fade != NoFade {
        alpha := a;
      }
    }

    /** The interpolation loop of `LerpAlpha`, one alpha value per frame. */
    method LerpAlpha(alphas: seq<real>)
      modifies this`alpha
      ensures State() == Frames(old(State()), alphas)
    {
      var i := 0;
      while i < |alphas|
        invariant 0 <= i <= |alphas|
        invariant State() == Frames(old(State()), alphas[..i])
      {
        assert alphas[..i + 1][..i] == alphas[..i];
        LerpStep(alphas[i]);
        i := i + 1;
      }
      assert alphas[..i] == alphas;
    }

    /** An awaited fade of kind `f` has ended: its tail runs after the
        `yield return LerpAlpha(...)`. */
    method EndFade(f: Fade)
      modifies this
      ensures State() == Ended(old(State()), f)
    {
      var slot := if fade == f then NoFade else fade;
      match f
      case NoFade =>
      case FadingIn =>
        OnCurtainShown();
        fade := slot;
      case FadingOut =>
        OnCurtainHidden();
        fade := slot;
    }
  }
}
