/** `SceneAnimator`: the running radii and colour crossfades, advanced once
    per display-link tick. The clock (`CACurrentMediaTime()`) is the
    parameter `now`, one value per call; the renderer is represented by the
    radii and fill it currently holds. */
module SceneAnimators {
  import opened Wrappers
  import opened ShaderTypes
  import AtomRadiiTables
  import FillColorInputUtility
  import ProteinColorModel
  import Proteins

  /** The timing part of a `RunningAnimation`. */
  datatype Timing = Timing(initialTime: Option<real>, currentTime: real, duration: real)

  datatype RadiiAnimation = RadiiAnimation(
    timing: Timing,
    initialValue: AtomRadii,
    finalValue: AtomRadii,
    colorBy: ProteinColorModel.ColorByOption,
    proteins: seq<Proteins.Protein>)

  datatype ColorAnimation = ColorAnimation(
    timing: Timing,
    initialValue: FillColorInput,
    finalValue: FillColorInput)

  /** `max(0, min(1, x))`. */
  function Clamp(x: real): (r: real)
    ensures 0.0 <= r <= 1.0
    ensures 0.0 <= x <= 1.0 ==> r == x
    ensures x < 0.0 ==> r == 0.0
    ensures x > 1.0 ==> r == 1.0
  {
    if 1.0 < x then 1.0 else if x < 0.0 then 0.0 else x
  }

  /** The fraction of the animation elapsed, clamped to [0, 1]; 0 before the
      start time is recorded. */
  function Progress(t: Timing): (p: real)
    requires t.duration > 0.0
    ensures 0.0 <= p <= 1.0
  {
    match t.initialTime
    case None => 0.0
    case Some(start) => Clamp((t.currentTime - start) / t.duration)
  }

  /** `getAnimationProgress(animation:)`: the first call records `now` as
      the start time and reports 0; later calls report the clamped elapsed
      fraction and leave the timing alone. */
  method GetAnimationProgress(timing: Timing, now: real) returns (progress: real, timing': Timing)
    requires timing.duration > 0.0
    ensures 0.0 <= progress <= 1.0
    ensures progress == Progress(timing)
    ensures timing.initialTime.None? ==> progress == 0.0 && timing' == timing.(initialTime := Some(now))
    ensures timing.initialTime.Some? ==> timing' == timing
  {
    if timing.initialTime.Some? {
      var initialTime := timing.initialTime.value;
      progress := Clamp((timing.currentTime - initialTime) / timing.duration);
      timing' := timing;
    } else {
      timing' := timing.(initialTime := Some(now));
      progress := 0.0;
    }
  }

  /** Once started, the progress reaches 1 exactly when a whole duration has
      elapsed. */
  lemma {:induction false} ProgressCompletes(t: Timing)
    requires t.duration > 0.0 && t.initialTime.Some?
    ensures Progress(t) >= 1.0 <==> t.currentTime - t.initialTime.value >= t.duration
  {
    var elapsed := t.currentTime - t.initialTime.value;
    if elapsed >= t.duration {
      assert elapsed / t.duration >= 1.0;
    } else {
      assert elapsed / t.duration < 1.0;
    }
  }

  /** The timing of a running animation after a tick at `now`: the current
      time is `now`, and the first tick records it as the start time. */
  function Ticked(timing: Timing, now: real): (t: Timing)
    ensures t.currentTime == now && t.duration == timing.duration
    ensures t.initialTime == if timing.initialTime.None? then Some(now) else timing.initialTime
  {
    var t := timing.(currentTime := now);
    if t.initialTime.None? then t.(initialTime := Some(now)) else t
  }

  /** One tick of a radii animation at `now`: the renderer holds the radii
      crossfade at the progress; at progress 1 the animation is over,
      otherwise it goes on with the ticked timing. */
  ghost predicate RadiiAdvanced(a: RadiiAnimation, now: real, radii: AtomRadii, next: Option<RadiiAnimation>)
    requires a.timing.duration > 0.0 && FullRadii(a.initialValue) && FullRadii(a.finalValue) && FullRadii(radii)
  {
    var t := a.timing.(currentTime := now);
    && (forall i :: 0 <= i < AtomTypeCount ==>
      radii.atomRadius[i] == AtomRadiiTables.Lerp(a.initialValue.atomRadius[i], a.finalValue.atomRadius[i], Progress(t)))
    && (Progress(t) >= 1.0 ==> next.None?)
    && (Progress(t) < 1.0 ==> next == Some(a.(timing := Ticked(a.timing, now))))
  }

  /** One tick of a colour animation at `now`: below progress 1 the renderer
      holds the crossfade and the animation goes on with the ticked timing;
      at progress 1 the renderer holds exactly the final fill and the
      animation is over. */
  ghost predicate ColorAdvanced(a: ColorAnimation, now: real, fill: FillColorInput, next: Option<ColorAnimation>)
    requires a.timing.duration > 0.0 && FullFill(a.initialValue) && FullFill(a.finalValue) && FullFill(fill)
  {
    var t := a.timing.(currentTime := now);
    && (Progress(t) >= 1.0 ==> fill == a.finalValue && next.None?)
    && (Progress(t) < 1.0 ==>
      && FillColorInputUtility.Crossfade(fill, a.initialValue, a.finalValue, Progress(t))
      && next == Some(a.(timing := Ticked(a.timing, now))))
  }

  class SceneAnimator {
    var radiiAnimation: Option<RadiiAnimation>
    var colorAnimation: Option<ColorAnimation>
    var isBusy: bool
    /** `displayLink?.isPaused`. */
    var displayLinkPaused: bool
    /** The renderer's atom radii and colour fill. */
    var rendererRadii: AtomRadii
    var rendererFill: FillColorInput

    ghost predicate Valid()
      reads this
    {
      && FullRadii(rendererRadii) && FullFill(rendererFill)
      && (radiiAnimation.Some? ==>
        && radiiAnimation.value.timing.duration > 0.0
        && FullRadii(radiiAnimation.value.initialValue) && FullRadii(radiiAnimation.value.finalValue))
      && (colorAnimation.Some? ==>
        && colorAnimation.value.timing.duration > 0.0
        && FullFill(colorAnimation.value.initialValue) && FullFill(colorAnimation.value.finalValue))
    }

    constructor (radii: AtomRadii, fill: FillColorInput)
      requires FullRadii(radii) && FullFill(fill)
      ensures Valid()
      ensures radiiAnimation.None? && colorAnimation.None? && !isBusy && !displayLinkPaused
      ensures rendererRadii == radii && rendererFill == fill
    {
      radiiAnimation, colorAnimation := None, None;
      isBusy, displayLinkPaused := false, false;
      rendererRadii, rendererFill := radii, fill;
    }

    /** `animateRadiiChange`: a new radii animation from the renderer's
        current radii replaces any running one, with no start time yet, and
        the display link resumes. */
    method AnimateRadiiChange(finalRadii: AtomRadii, duration: real, colorBy: ProteinColorModel.ColorByOption,
                              proteins: seq<Proteins.Protein>, now: real)
      requires Valid() && FullRadii(finalRadii) && duration > 0.0
      modifies this`radiiAnimation, this`displayLinkPaused
      ensures Valid()
      ensures radiiAnimation == Some(RadiiAnimation(Timing(None, now, duration), rendererRadii, finalRadii, colorBy, proteins))
      ensures !displayLinkPaused
    {
      var initialAtomRadii := rendererRadii;
      radiiAnimation := Some(RadiiAnimation(Timing(None, now, duration), initialAtomRadii, finalRadii, colorBy, proteins));
      displayLinkPaused := false;
    }

    /** `animatedFillColorChange`: a new colour animation replaces any
        running one, with no start time yet, and the display link resumes. */
    method AnimatedFillColorChange(initialColors: FillColorInput, finalColors: FillColorInput, duration: real, now: real)
      requires Valid() && FullFill(initialColors) && FullFill(finalColors) && duration > 0.0
      modifies this`colorAnimation, this`displayLinkPaused
      ensures Valid()
      ensures colorAnimation == Some(ColorAnimation(Timing(None, now, duration), initialColors, finalColors))
      ensures !displayLinkPaused
    {
      colorAnimation := Some(ColorAnimation(Timing(None, now, duration), initialColors, finalColors));
      displayLinkPaused := false;
    }

    /** `pauseDisplayLinkIfNeeded()`: pauses only when neither animation
        runs. */
    method PauseDisplayLinkIfNeeded()
      modifies this`displayLinkPaused
      ensures displayLinkPaused == (old(displayLinkPaused) || (radiiAnimation.None? && colorAnimation.None?))
    {
      if radiiAnimation.Some? {
        return;
      }
      if colorAnimation.Some? {
        return;
      }
      displayLinkPaused := true;
    }

    /** `updateRadiiAnimation()`: the renderer receives the radii crossfade at
        the current progress; at progress 1 the animation ends and the
        display link pauses unless a colour animation runs. */
    method UpdateRadiiAnimation(now: real)
      requires Valid()
      modifies this`radiiAnimation, this`rendererRadii, this`displayLinkPaused
      ensures Valid()
      ensures old(radiiAnimation).None? ==>
        radiiAnimation.None? && rendererRadii == old(rendererRadii) && displayLinkPaused == old(displayLinkPaused)
      ensures old(radiiAnimation).Some? ==>
        var a := old(radiiAnimation).value;
        var t := a.timing.(currentTime := now);
        && RadiiAdvanced(a, now, rendererRadii, radiiAnimation)
        && (Progress(t) >= 1.0 ==> displayLinkPaused == (old(displayLinkPaused) || colorAnimation.None?))
        && (Progress(t) < 1.0 ==> displayLinkPaused == old(displayLinkPaused))
    {
      if radiiAnimation.None? {
        return;
      }
      var animation := radiiAnimation.value;
      animation := animation.(timing := animation.timing.(currentTime := now));
      radiiAnimation := Some(animation);
      var progress, timing' := GetAnimationProgress(animation.timing, now);
      radiiAnimation := Some(animation.(timing := timing'));
      var newRadii := AtomRadiiTables.Interpolated(animation.initialValue, animation.finalValue, progress);
      rendererRadii := newRadii;
      if progress >= 1.0 {
        radiiAnimation := None;
        PauseDisplayLinkIfNeeded();
      }
    }

    /** `updateColorAnimation()`: the renderer receives the colour crossfade
        at the current progress; at progress 1 it receives exactly the final
        fill, the animation ends and the display link pauses unless a radii
        animation runs. */
    method UpdateColorAnimation(now: real)
      requires Valid()
      modifies this`colorAnimation, this`rendererFill, this`displayLinkPaused
      ensures Valid()
      ensures old(colorAnimation).None? ==>
        colorAnimation.None? && rendererFill == old(rendererFill) && displayLinkPaused == old(displayLinkPaused)
      ensures old(colorAnimation).Some? ==>
        var a := old(colorAnimation).value;
        var t := a.timing.(currentTime := now);
        && ColorAdvanced(a, now, rendererFill, colorAnimation)
        && (Progress(t) >= 1.0 ==> displayLinkPaused == (old(displayLinkPaused) || radiiAnimation.None?))
        && (Progress(t) < 1.0 ==> displayLinkPaused == old(displayLinkPaused))
    {
      if colorAnimation.None? {
        return;
      }
      var animation := colorAnimation.value;
      animation := animation.(timing := animation.timing.(currentTime := now));
      colorAnimation := Some(animation);
      var progress, timing' := GetAnimationProgress(animation.timing, now);
      colorAnimation := Some(animation.(timing := timing'));
      var newColorFill := FillColorInputUtility.InterpolateFillColorInput(animation.initialValue, animation.finalValue, progress);
      rendererFill := newColorFill;
      if progress >= 1.0 {
        rendererFill := animation.finalValue;
        colorAnimation := None;
        PauseDisplayLinkIfNeeded();
      }
    }

    /** `updateAllAnimations()`: nothing while busy; otherwise each running
        animation advances once, radii first, and the animator is no longer
        busy afterwards. */
    method UpdateAllAnimations(now: real)
      requires Valid()
      modifies this
      ensures Valid()
      ensures old(isBusy) ==>
        && isBusy
        && radiiAnimation == old(radiiAnimation) && colorAnimation == old(colorAnimation)
        && rendererRadii == old(rendererRadii) && rendererFill == old(rendererFill)
        && displayLinkPaused == old(displayLinkPaused)
      ensures !old(isBusy) ==> !isBusy
      ensures !old(isBusy) && old(radiiAnimation).Some? ==>
        RadiiAdvanced(old(radiiAnimation).value, now, rendererRadii, radiiAnimation)
      ensures !old(isBusy) && old(colorAnimation).Some? ==>
        ColorAdvanced(old(colorAnimation).value, now, rendererFill, colorAnimation)
      ensures !old(isBusy) ==>
        displayLinkPaused == (old(displayLinkPaused) ||
          (radiiAnimation.None? && colorAnimation.None? && (old(radiiAnimation).Some? || old(colorAnimation).Some?)))
      ensures old(radiiAnimation).None? ==> radiiAnimation.None? && rendererRadii == old(rendererRadii)
      ensures old(colorAnimation).None? ==> colorAnimation.None? && rendererFill == old(rendererFill)
    {
      if isBusy {
        return;
      }
      isBusy := true;
      if radiiAnimation.Some? {
        UpdateRadiiAnimation(now);
      }
      if colorAnimation.Some? {
        UpdateColorAnimation(now);
      }
      isBusy := false;
    }
  }
}
