/** The status bar's model: the status text, progress and warnings are
    written to internal fields, and a display-link tick copies them to the
    fields the view shows. `Sync` is a tick; each display link made is
    recorded only as scheduled or invalidated. Work sent to the main queue
    runs at once here, except the invalidation a stop schedules half a
    second later, which is its own step, `InvalidateDisplayLink`.
    `AppState.maxNumberOfWarnings` is not part of this model and is given to
    the constructor. */
module UtilityStatus {
  import opened Wrappers

  const Idle: string := "Idle"

  /** `setWarning(warning:)` on a list of stored warnings: the warning is
      kept only while fewer than `cap` are stored. */
  function AddWarning(warnings: seq<string>, warning: string, cap: nat): seq<string>
  {
    if |warnings| < cap then warnings + [warning] else warnings
  }

  /** The warnings stored after `incoming` arrives in order. */
  function AddWarnings(warnings: seq<string>, incoming: seq<string>, cap: nat): seq<string>
  {
    if |incoming| == 0 then warnings
    else AddWarning(AddWarnings(warnings, incoming[..|incoming| - 1], cap), incoming[|incoming| - 1], cap)
  }

  function Min(a: int, b: int): int {
    if a < b then a else b
  }

  /** Warnings are kept first come, first served: from a list within the
      cap, the stored list is the first `cap` of all warnings received, so
      it never exceeds the cap and later warnings are the ones dropped. */
  lemma {:induction false} FirstWarningsKept(warnings: seq<string>, incoming: seq<string>, cap: nat)
    requires |warnings| <= cap
    ensures |warnings + incoming| >= Min(cap, |warnings| + |incoming|)
    ensures AddWarnings(warnings, incoming, cap) == (warnings + incoming)[..Min(cap, |warnings| + |incoming|)]
    ensures |AddWarnings(warnings, incoming, cap)| <= cap
  {
    if |incoming| > 0 {
      var init := incoming[..|incoming| - 1];
      var last := incoming[|incoming| - 1];
      FirstWarningsKept(warnings, init, cap);
      var all := warnings + incoming;
      assert warnings + init == all[..|all| - 1];
      var stored := AddWarnings(warnings, init, cap);
      if |stored| < cap {
        assert stored == all[..|all| - 1];
        assert all == all[..|all| - 1] + [last];
      } else {
        assert stored == all[..cap];
      }
    }
  }

  class StatusViewModel {
    const maxNumberOfWarnings: nat
    var statusText: string
    var statusRunning: bool
    var progress: Option<real>
    var statusError: Option<string>
    var statusWarning: seq<string>
    /** Every display link made so far, oldest first: `true` while it is
        scheduled, `false` once invalidated. */
    var links: seq<bool>
    /** `displayLink`: the index of the link made last. */
    var displayLink: Option<nat>
    /** Delayed invalidations scheduled by stops that have not run yet. */
    var pendingInvalidations: nat
    var internalStatusText: string
    var internalProgress: Option<real>
    var internalStatusWarning: seq<string>

    /** Neither warning list ever holds more than the cap, and the current
        link, once there is one, is the one made last. */
    ghost predicate Valid()
      reads this
    {
      && |internalStatusWarning| <= maxNumberOfWarnings && |statusWarning| <= maxNumberOfWarnings
      && (displayLink.None? <==> links == [])
      && (displayLink.Some? ==> displayLink.value == |links| - 1)
    }

    /** A new model is idle, with no progress, error or warnings. */
    constructor (maxNumberOfWarnings: nat)
      ensures Valid()
      ensures this.maxNumberOfWarnings == maxNumberOfWarnings
      ensures statusText == Idle && internalStatusText == Idle && !statusRunning
      ensures links == [] && displayLink.None? && pendingInvalidations == 0
      ensures progress.None? && internalProgress.None? && statusError.None?
      ensures statusWarning == [] && internalStatusWarning == []
    {
      this.maxNumberOfWarnings := maxNumberOfWarnings;
      statusText, internalStatusText := Idle, Idle;
      statusRunning := false;
      links, displayLink, pendingInvalidations := [], None, 0;
      progress, internalProgress := None, None;
      statusError := None;
      statusWarning, internalStatusWarning := [], [];
    }

    /** `syncInternalAndUIStates()`: the shown text, progress and warnings
        become the internal ones. */
    method Sync()
      requires Valid()
      modifies this`statusText, this`progress, this`statusWarning
      ensures Valid()
      ensures statusText == internalStatusText && progress == internalProgress
      ensures statusWarning == internalStatusWarning
    {
      statusText := internalStatusText;
      progress := internalProgress;
      statusWarning := internalStatusWarning;
    }

    /** `setStatusText(text:)`: only the internal text changes; the view sees
        it at the next tick. */
    method SetStatusText(text: string)
      modifies this`internalStatusText
      ensures internalStatusText == text
    {
      internalStatusText := text;
    }

    /** `setRunningStatus(running:)`: starting makes and schedules a new
        display link and makes it the current one, leaving any earlier link
        as it was; stopping resets the internal text to "Idle" and schedules
        an invalidation of whatever link is current when it runs. */
    method SetRunningStatus(running: bool)
      requires Valid()
      modifies this`statusRunning, this`links, this`displayLink, this`pendingInvalidations, this`internalStatusText
      ensures Valid()
      ensures statusRunning == running
      ensures running ==>
        && links == old(links) + [true] && displayLink == Some(|old(links)|)
        && pendingInvalidations == old(pendingInvalidations) && internalStatusText == old(internalStatusText)
      ensures !running ==>
        && links == old(links) && displayLink == old(displayLink)
        && pendingInvalidations == old(pendingInvalidations) + 1 && internalStatusText == Idle
    {
      statusRunning := running;
      if running {
        displayLink := Some(|links|);
        links := links + [true];
      } else {
        internalStatusText := Idle;
        pendingInvalidations := pendingInvalidations + 1;
      }
    }

    /** The closure a stop schedules half a second later:
        `displayLink?.invalidate()` invalidates the link that is current
        when it runs, which need not be the one current at the stop. */
    method InvalidateDisplayLink()
      requires Valid() && pendingInvalidations > 0
      modifies this`links, this`pendingInvalidations
      ensures Valid()
      ensures pendingInvalidations == old(pendingInvalidations) - 1
      ensures displayLink.None? ==> links == old(links)
      ensures displayLink.Some? ==> links == old(links)[displayLink.value := false]
    {
      pendingInvalidations := pendingInvalidations - 1;
      if displayLink.Some? {
        links := links[displayLink.value := false];
      }
    }

    /** `setProgress(progress:)`: only the internal progress changes. */
    method SetProgress(value: real)
      modifies this`internalProgress
      ensures internalProgress == Some(value)
    {
      internalProgress := Some(value);
    }

    /** `setError(error:)`: the shown error is set directly. */
    method SetError(error: string)
      modifies this`statusError
      ensures statusError == Some(error)
    {
      statusError := Some(error);
    }

    /** `setWarning(warning:)`: the warning is stored only below the cap. */
    method SetWarning(warning: string)
      requires Valid()
      modifies this`internalStatusWarning
      ensures Valid()
      ensures internalStatusWarning == AddWarning(old(internalStatusWarning), warning, maxNumberOfWarnings)
    {
      if !(|internalStatusWarning| < maxNumberOfWarnings) {
        return;
      }
      internalStatusWarning := internalStatusWarning + [warning];
    }

    /** `removeAllWarnings()`: both warning lists are emptied. */
    method RemoveAllWarnings()
      requires Valid()
      modifies this`internalStatusWarning, this`statusWarning
      ensures Valid()
      ensures internalStatusWarning == [] && statusWarning == []
    {
      internalStatusWarning := [];
      statusWarning := [];
    }

    /** `removeAllErrors()`: the shown error is cleared. */
    method RemoveAllErrors()
      modifies this`statusError
      ensures statusError.None?
    {
      statusError := None;
    }
  }

  /** Warnings reach the view only through a tick: setting one and syncing
      shows exactly the stored list. */
  method WarningShownAfterSync(model: StatusViewModel, warning: string)
    requires model.Valid()
    modifies model
    ensures model.Valid()
    ensures model.statusWarning == AddWarning(old(model.internalStatusWarning), warning, model.maxNumberOfWarnings)
    ensures model.statusText == old(model.internalStatusText)
  {
    model.SetWarning(warning);
    model.Sync();
  }

  /** Starting twice and stopping once leaves the first link scheduled for
      good: only the link current when the invalidation runs is stopped. */
  method RestartLeaksLink(cap: nat) returns (model: StatusViewModel)
    ensures model.links == [true, false]
    ensures !model.statusRunning && model.pendingInvalidations == 0
  {
    model := new StatusViewModel(cap);
    model.SetRunningStatus(true);
    model.SetRunningStatus(true);
    model.SetRunningStatus(false);
    model.InvalidateDisplayLink();
  }

  /** Stopping and restarting within half a second: the delayed
      invalidation stops the new link while the status says running, and
      the first link is never invalidated. */
  method QuickRestartStopsNewLink(cap: nat) returns (model: StatusViewModel)
    ensures model.statusRunning
    ensures model.displayLink == Some(1) && model.links == [true, false]
  {
    model := new StatusViewModel(cap);
    model.SetRunningStatus(true);
    model.SetRunningStatus(false);
    model.SetRunningStatus(true);
    model.InvalidateDisplayLink();
  }

  /** A start then a stop whose invalidation runs leaves no link scheduled. */
  method StopThenInvalidate(cap: nat) returns (model: StatusViewModel)
    ensures !model.statusRunning && model.links == [false] && model.internalStatusText == Idle
  {
    model := new StatusViewModel(cap);
    model.SetRunningStatus(true);
    model.SetRunningStatus(false);
    model.InvalidateDisplayLink();
  }
}
