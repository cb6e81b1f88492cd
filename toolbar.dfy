/**
 * The rail construction toolbar: the remove button (its lowered and
 * disabled state and the global "remove mode" flag it drives) and the
 * polyline tool's open/snap decision.
 */
module Toolbar {

  /** The toolbar's buttons. */
  datatype ToolbarWidget =
    | BuildNS | BuildX | BuildEW | BuildY | Autorail | Polyrail
    | Demolish | BuildDepot | BuildWaypoint | BuildStation | BuildSignals
    | BuildBridge | BuildTunnel | Remove | ConvertRail | Blueprint

  /** `last_user_action`: the last button clicked or hotkey pressed (`WIDGET_LIST_END` is `NoAction`). */
  datatype UserAction =
    | Clicked(widget: ToolbarWidget)
    | HotkeyPolyrail | HotkeyNewPolyrail
    | HotkeyStationSized | HotkeyStationDragDrop
    | NoAction

  /** The buttons whose tool can be used in remove mode. */
  predicate DrivesRemove(w: ToolbarWidget)
  {
    w in {BuildNS, BuildX, BuildEW, BuildY, Autorail, Polyrail, BuildWaypoint, BuildStation, BuildSignals}
  }

  /** Whether the polyline tool ends up open, and in snapping mode or not. */
  datatype PolyDecision = PolyDecision(open: bool, snap: bool)

  /**
   * The polyline button's decision table.  The "polyrail" hotkey selects
   * snapping and closes only a tool already open in snapping mode; the
   * "new_polyrail" hotkey selects non-snapping and closes only a tool
   * already open in non-snapping mode; an fn-click never closes, switches
   * an open tool's mode and opens a closed tool in snapping mode; a plain
   * click toggles the tool with snapping off.
   */
  function PolylineDecision(last: UserAction, fnMod: bool, wasOpen: bool, wasSnap: bool): (d: PolyDecision)
    ensures last.HotkeyPolyrail? ==> d.snap && (d.open <==> !(wasOpen && wasSnap))
    ensures last.HotkeyNewPolyrail? ==> !d.snap && (d.open <==> !(wasOpen && !wasSnap))
    ensures !last.HotkeyPolyrail? && !last.HotkeyNewPolyrail? && fnMod ==>
              d.open && (wasOpen ==> d.snap == !wasSnap) && (!wasOpen ==> d.snap)
    ensures !last.HotkeyPolyrail? && !last.HotkeyNewPolyrail? && !fnMod ==> !d.snap && d.open == !wasOpen
  {
    if last == HotkeyPolyrail then PolyDecision(!wasOpen || !wasSnap, true)
    else if last == HotkeyNewPolyrail then PolyDecision(!wasOpen || wasSnap, false)
    else if fnMod then PolyDecision(true, !wasOpen || !wasSnap)
    else PolyDecision(!wasOpen, false)
  }

  /** The snap mode after a decision: set only when the tool ends up open. */
  function SnapAfter(d: PolyDecision, wasSnap: bool): bool
  {
    if d.open then d.snap else wasSnap
  }

  /**
   * Pressing the "polyrail" hotkey over and over alternates between a
   * closed tool and a tool open in snapping mode, whatever the start.
   */
  lemma PolyrailHotkeyAlternates(wasOpen: bool, wasSnap: bool)
    ensures var d1 := PolylineDecision(HotkeyPolyrail, false, wasOpen, wasSnap);
            var d2 := PolylineDecision(HotkeyPolyrail, false, d1.open, SnapAfter(d1, wasSnap));
            d2.open == !d1.open && SnapAfter(d2, SnapAfter(d1, wasSnap))
  {
  }

  /** Two plain clicks leave the tool as open or closed as before, in non-snapping mode if open. */
  lemma PlainClickTwiceRestores(wasOpen: bool, wasSnap: bool)
    ensures var d1 := PolylineDecision(NoAction, false, wasOpen, wasSnap);
            var d2 := PolylineDecision(NoAction, false, d1.open, SnapAfter(d1, wasSnap));
            d2.open == wasOpen && (wasOpen ==> !SnapAfter(d2, SnapAfter(d1, wasSnap)))
  {
  }

  /**
   * The code opens a closed tool in snapping mode on an fn-click, although
   * the comment above the table promises non-snapping.
   */
  lemma FnClickOnClosedToolSnaps(last: UserAction, wasSnap: bool)
    requires !last.HotkeyPolyrail? && !last.HotkeyNewPolyrail?
    ensures PolylineDecision(last, true, false, wasSnap) == PolyDecision(true, true)
  {
  }

  /** `BuildRailToolbarWindow` with the global remove-mode and rail-snap flags it drives. */
  class RailToolbar {
    /** The lowered buttons. */
    var lowered: set<ToolbarWidget>
    /** Whether the remove button is disabled. */
    var removeDisabled: bool
    /** `_remove_button_clicked`: remove mode is on. */
    var removeClicked: bool
    /** The rail snap mode is `RSM_SNAP_TO_RAIL`. */
    var snapToRail: bool
    var lastUserAction: UserAction

    /** A fresh toolbar: nothing lowered, the remove button disabled, no action yet. */
    constructor(removeClicked0: bool, snapToRail0: bool)
      ensures lowered == {} && removeDisabled && lastUserAction == NoAction
      ensures removeClicked == removeClicked0 && snapToRail == snapToRail0
    {
      lowered := {};
      removeDisabled := true;
      removeClicked := removeClicked0;
      snapToRail := snapToRail0;
      lastUserAction := NoAction;
    }

    /** `ToggleRailButton_Remove`: toggle the remove button; remove mode follows its new state. */
    method ToggleRemove()
      modifies this
      ensures (Remove in lowered) == (Remove !in old(lowered))
      ensures lowered - {Remove} == old(lowered) - {Remove}
      ensures removeClicked == (Remove in lowered)
      ensures removeDisabled == old(removeDisabled) && snapToRail == old(snapToRail)
      ensures lastUserAction == old(lastUserAction)
    {
      if Remove in lowered {
        lowered := lowered - {Remove};
      } else {
        lowered := lowered + {Remove};
      }
      removeClicked := Remove in lowered;
    }

    /** `BuildRailClick_Remove`: a disabled remove button ignores the click, otherwise it toggles. */
    method ClickRemove()
      modifies this
      ensures old(removeDisabled) ==> lowered == old(lowered) && removeClicked == old(removeClicked)
      ensures !old(removeDisabled) ==> (Remove in lowered) == (Remove !in old(lowered)) && removeClicked == (Remove in lowered)
      ensures lowered - {Remove} == old(lowered) - {Remove}
      ensures removeDisabled == old(removeDisabled) && snapToRail == old(snapToRail)
      ensures lastUserAction == old(lastUserAction)
    {
      if removeDisabled {
        return;
      }
      ToggleRemove();
    }

    /**
     * `UpdateRemoveWidgetStatus`: after a click on a track, waypoint,
     * station or signal button the remove button is enabled exactly while
     * that button stays lowered; after any other button but remove itself,
     * it is disabled and raised.
     */
    method UpdateRemoveWidgetStatus(clicked: ToolbarWidget)
      modifies this
      ensures clicked == Remove ==> removeDisabled == old(removeDisabled) && lowered == old(lowered)
      ensures DrivesRemove(clicked) ==> removeDisabled == (clicked !in old(lowered)) && lowered == old(lowered)
      ensures clicked != Remove && !DrivesRemove(clicked) ==> removeDisabled && lowered == old(lowered) - {Remove}
      ensures removeClicked == old(removeClicked) && snapToRail == old(snapToRail)
      ensures lastUserAction == old(lastUserAction)
    {
      if clicked == Remove {
        return;
      } else if DrivesRemove(clicked) {
        removeDisabled := clicked !in lowered;
      } else {
        removeDisabled := true;
        lowered := lowered - {Remove};
      }
    }

    /**
     * The toolbar's part of `OnPlaceObjectAbort`, which the host runs when
     * the placement this toolbar owns is replaced or reset: every lowered
     * button is raised (`RaiseButtons`) and the remove button is disabled.
     * Remove mode itself is left as it is.
     */
    method AbortPlacement()
      modifies this
      ensures lowered == {} && removeDisabled
      ensures removeClicked == old(removeClicked) && snapToRail == old(snapToRail)
      ensures lastUserAction == old(lastUserAction)
    {
      lowered := {};
      removeDisabled := true;
    }

    /**
     * The polyline branch of `OnClick`.  When the decision changes whether
     * the tool is open, the button is pushed (`HandlePlacePushButton`):
     * closing the tool resets the placement this toolbar owns, which aborts
     * it; opening it first aborts the current placement when this toolbar
     * owns one (`ownsPlacement`), then lowers the button.  The snap mode is
     * set only when the tool ends up open.  When the open state did not
     * change the handler returns before touching remove mode; otherwise
     * remove mode becomes the host's inversion choice for a mouse click
     * (`invertRemove`) and off for a hotkey.
     */
    method ClickPolyrail(fnMod: bool, isHotkey: bool, invertRemove: bool, ownsPlacement: bool)
      modifies this
      ensures var d := PolylineDecision(old(lastUserAction), fnMod, Polyrail in old(lowered), old(snapToRail));
              && (Polyrail in lowered) == d.open
              && snapToRail == SnapAfter(d, old(snapToRail))
              && removeClicked == (if d.open == (Polyrail in old(lowered)) then old(removeClicked) else !isHotkey && invertRemove)
      ensures var d := PolylineDecision(old(lastUserAction), fnMod, Polyrail in old(lowered), old(snapToRail));
              && (d.open == (Polyrail in old(lowered)) ==> lowered == old(lowered) && removeDisabled == old(removeDisabled))
              && (Polyrail in old(lowered) && !d.open ==> lowered == {} && removeDisabled)
              && (Polyrail !in old(lowered) && d.open && ownsPlacement ==> lowered == {Polyrail} && removeDisabled)
              && (Polyrail !in old(lowered) && d.open && !ownsPlacement ==>
                    lowered == old(lowered) + {Polyrail} && removeDisabled == old(removeDisabled))
      ensures lastUserAction == Clicked(Polyrail)
    {
      var wasSnap := snapToRail;
      var wasOpen := Polyrail in lowered;
      var d := PolylineDecision(lastUserAction, fnMod, wasOpen, wasSnap);
      if wasOpen != d.open {
        if wasOpen {
          AbortPlacement();
        } else {
          if ownsPlacement {
            AbortPlacement();
          }
          lowered := lowered + {Polyrail};
        }
      }
      if d.open {
        snapToRail := d.snap;
      }
      lastUserAction := Clicked(Polyrail);
      if wasOpen == d.open {
        return;
      }
      removeClicked := !isHotkey && invertRemove;
    }

    /** `OnHotkey` for the two polyline hotkeys: remember the hotkey and click the polyline button as a hotkey. */
    method PolyrailHotkey(newLine: bool, ownsPlacement: bool)
      modifies this
      ensures var d := PolylineDecision(if newLine then HotkeyNewPolyrail else HotkeyPolyrail, false, Polyrail in old(lowered), old(snapToRail));
              && (Polyrail in lowered) == d.open
              && d.snap == !newLine
              && snapToRail == SnapAfter(d, old(snapToRail))
              && removeClicked == (if d.open == (Polyrail in old(lowered)) then old(removeClicked) else false)
              && (d.open == (Polyrail in old(lowered)) ==> lowered == old(lowered) && removeDisabled == old(removeDisabled))
              && (d.open != (Polyrail in old(lowered)) && (Polyrail in old(lowered) || ownsPlacement) ==>
                    lowered <= {Polyrail} && removeDisabled)
              && (d.open != (Polyrail in old(lowered)) && !(Polyrail in old(lowered) || ownsPlacement) ==>
                    lowered == old(lowered) + {Polyrail} && removeDisabled == old(removeDisabled))
      ensures lastUserAction == Clicked(Polyrail)
    {
      lastUserAction := if newLine then HotkeyNewPolyrail else HotkeyPolyrail;
      ClickPolyrail(false, true, false, ownsPlacement);
    }
  }
}
