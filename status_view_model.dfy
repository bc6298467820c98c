/** The status view's model: running and failed actions are edited in
    internal lists, and a display-link tick copies them to the lists the
    view shows and picks the action to display. The display link itself is
    not modelled; `Sync` is its tick. */
module StatusViewModels {
  import opened Wrappers
  import opened StatusActions

  /** `actions.contains(where: { $0.id == id })`. */
  predicate HasId(actions: seq<StatusAction>, id: nat) {
    exists i :: 0 <= i < |actions| && actions[i].id == id
  }

  /** `removeAll(where: { $0.id == id })`: the other actions, in order. */
  function WithoutId(actions: seq<StatusAction>, id: nat): (r: seq<StatusAction>)
    ensures |r| <= |actions|
  {
    if |actions| == 0 then []
    else
      var rest := WithoutId(actions[..|actions| - 1], id);
      if actions[|actions| - 1].id == id then rest else rest + [actions[|actions| - 1]]
  }

  /** An action survives the removal exactly when it is in the list under
      another identity. */
  lemma {:induction false} WithoutIdMembers(actions: seq<StatusAction>, id: nat, a: StatusAction)
    ensures a in WithoutId(actions, id) <==> a in actions && a.id != id
  {
    if |actions| > 0 {
      var init := actions[..|actions| - 1];
      WithoutIdMembers(init, id, a);
      assert actions == init + [actions[|actions| - 1]];
    }
  }

  /** After the removal no action has that identity, and removing again
      changes nothing. */
  lemma {:induction false} WithoutIdRemovesAll(actions: seq<StatusAction>, id: nat)
    ensures !HasId(WithoutId(actions, id), id)
    ensures WithoutId(WithoutId(actions, id), id) == WithoutId(actions, id)
  {
    if |actions| > 0 {
      var init := actions[..|actions| - 1];
      var last := actions[|actions| - 1];
      WithoutIdRemovesAll(init, id);
      var rest := WithoutId(init, id);
      if last.id != id {
        assert (rest + [last])[..|rest|] == rest;
      }
    }
  }

  /** The action the view shows: the last failed one, else the last running
      one. */
  function PrimaryAction(failed: seq<StatusAction>, running: seq<StatusAction>): (a: Option<StatusAction>)
    ensures a.None? <==> failed == [] && running == []
    ensures |failed| > 0 ==> a == Some(failed[|failed| - 1])
    ensures failed == [] && |running| > 0 ==> a == Some(running[|running| - 1])
  {
    if |failed| > 0 then Some(failed[|failed| - 1])
    else if |running| > 0 then Some(running[|running| - 1])
    else None
  }

  /** `contains(where: { $0.type.blocksRendering })`. */
  predicate AnyBlocks(actions: seq<StatusAction>) {
    exists i :: 0 <= i < |actions| && BlocksRendering(actions[i].actionType)
  }

  /** `contains(where: { $0.type == .importFile })`. */
  predicate AnyImport(actions: seq<StatusAction>) {
    exists i :: 0 <= i < |actions| && actions[i].actionType == ImportFile
  }

  class StatusViewModel {
    var actionToShow: Option<StatusActionUI>
    var runningActions: seq<StatusAction>
    var failedActions: seq<StatusAction>
    var internalRunningActions: seq<StatusAction>
    var internalFailedActions: seq<StatusAction>

    constructor ()
      ensures actionToShow.None?
      ensures runningActions == failedActions == internalRunningActions == internalFailedActions == []
    {
      actionToShow := None;
      runningActions, failedActions := [], [];
      internalRunningActions, internalFailedActions := [], [];
    }

    /** `isBlockingUI`: some shown running or failed action blocks
        rendering. */
    predicate IsBlockingUI()
      reads this
      ensures IsBlockingUI() <==> IsImportingFile()
    {
      BlockingIsImporting(runningActions, failedActions);
      AnyBlocks(runningActions) || AnyBlocks(failedActions)
    }

    /** `isImportingFile`: some shown running or failed action imports a
        file. */
    predicate IsImportingFile()
      reads this
      ensures IsImportingFile() <==> exists a :: a in runningActions + failedActions && a.actionType == ImportFile
    {
      AnyImport(runningActions) || AnyImport(failedActions)
    }

    /** `syncInternalAndUIStates()`: the shown lists become the internal
        ones and the shown action is the primary action, converted for
        display. */
    method Sync()
      modifies this`runningActions, this`failedActions, this`actionToShow
      ensures runningActions == internalRunningActions && failedActions == internalFailedActions
      ensures actionToShow == match PrimaryAction(failedActions, runningActions)
        case None => None
        case Some(a) => Some(ToUI(a))
    {
      runningActions := internalRunningActions;
      failedActions := internalFailedActions;
      var primaryAction := if |failedActions| > 0 then Some(failedActions[|failedActions| - 1])
        else if |runningActions| > 0 then Some(runningActions[|runningActions| - 1])
        else None;
      if primaryAction.Some? {
        actionToShow := Some(ToUI(primaryAction.value));
      } else {
        actionToShow := None;
      }
    }

    /** `showStatusForAction(_:)`. */
    method ShowStatusForAction(statusAction: StatusAction)
      modifies this`internalRunningActions
      ensures internalRunningActions == old(internalRunningActions) + [statusAction]
    {
      internalRunningActions := internalRunningActions + [statusAction];
    }

    /** `updateDescription(_:description:)`: nothing for an action that is
        not running; otherwise every entry with its identity is replaced by
        one copy, at the end, carrying the new description. */
    method UpdateDescription(statusAction: StatusAction, description: Option<string>)
      modifies this`internalRunningActions
      ensures !HasId(old(internalRunningActions), statusAction.id) ==> internalRunningActions == old(internalRunningActions)
      ensures HasId(old(internalRunningActions), statusAction.id) ==>
        internalRunningActions == WithoutId(old(internalRunningActions), statusAction.id) + [statusAction.(description := description)]
    {
      if !HasId(internalRunningActions, statusAction.id) {
        return;
      }
      internalRunningActions := WithoutId(internalRunningActions, statusAction.id);
      var newAction := statusAction.(description := description);
      internalRunningActions := internalRunningActions + [newAction];
    }

    /** `updateProgress(_:progress:)`: as `updateDescription`, for the
        progress. */
    method UpdateProgress(statusAction: StatusAction, progress: Option<Progress>)
      modifies this`internalRunningActions
      ensures !HasId(old(internalRunningActions), statusAction.id) ==> internalRunningActions == old(internalRunningActions)
      ensures HasId(old(internalRunningActions), statusAction.id) ==>
        internalRunningActions == WithoutId(old(internalRunningActions), statusAction.id) + [statusAction.(progress := progress)]
    {
      if !HasId(internalRunningActions, statusAction.id) {
        return;
      }
      internalRunningActions := WithoutId(internalRunningActions, statusAction.id);
      var newAction := statusAction.(progress := progress);
      internalRunningActions := internalRunningActions + [newAction];
    }

    /** `signalActionFinished(_:withError:)`: nothing for an action that is
        not running; otherwise it stops running, and joins the failed
        actions, carrying the error, exactly when there is one. */
    method SignalActionFinished(statusAction: StatusAction, error: Option<string>)
      modifies this`internalRunningActions, this`internalFailedActions
      ensures !HasId(old(internalRunningActions), statusAction.id) ==>
        internalRunningActions == old(internalRunningActions) && internalFailedActions == old(internalFailedActions)
      ensures HasId(old(internalRunningActions), statusAction.id) ==>
        && internalRunningActions == WithoutId(old(internalRunningActions), statusAction.id)
        && internalFailedActions == old(internalFailedActions) + (if error.Some? then [statusAction.(error := error)] else [])
    {
      if !HasId(internalRunningActions, statusAction.id) {
        return;
      }
      internalRunningActions := WithoutId(internalRunningActions, statusAction.id);
      if error.Some? {
        var newAction := statusAction.(error := error);
        internalFailedActions := internalFailedActions + [newAction];
      }
    }

    /** `dismissAction(_:)`: the action leaves both internal lists. */
    method DismissAction(statusAction: StatusActionUI)
      modifies this`internalRunningActions, this`internalFailedActions
      ensures internalRunningActions == WithoutId(old(internalRunningActions), statusAction.id)
      ensures internalFailedActions == WithoutId(old(internalFailedActions), statusAction.id)
    {
      internalRunningActions := WithoutId(internalRunningActions, statusAction.id);
      internalFailedActions := WithoutId(internalFailedActions, statusAction.id);
    }
  }

  /** Only file imports block rendering, so the two queries always agree. */
  lemma {:induction false} BlockingIsImporting(running: seq<StatusAction>, failed: seq<StatusAction>)
    ensures (AnyBlocks(running) || AnyBlocks(failed)) <==> (AnyImport(running) || AnyImport(failed))
  {
    assert forall i :: 0 <= i < |running| ==> (BlocksRendering(running[i].actionType) <==> running[i].actionType == ImportFile);
    assert forall i :: 0 <= i < |failed| ==> (BlocksRendering(failed[i].actionType) <==> failed[i].actionType == ImportFile);
  }

  /** After an update the action runs exactly once, with the new
      description, and every other running action stays. */
  lemma {:induction false} UpdateKeepsOthers(running: seq<StatusAction>, action: StatusAction, description: Option<string>, other: StatusAction)
    requires other.id != action.id
    ensures var updated := WithoutId(running, action.id) + [action.(description := description)];
      && (other in updated <==> other in running)
      && !HasId(updated[..|updated| - 1], action.id)
  {
    WithoutIdMembers(running, action.id, other);
    WithoutIdRemovesAll(running, action.id);
    var updated := WithoutId(running, action.id) + [action.(description := description)];
    assert updated[..|updated| - 1] == WithoutId(running, action.id);
  }
}
