# Rail construction interface: a verified model

This project models the self-contained logic of the rail construction
interface of the CityMania client (`src/rail_gui.cpp`), an OpenTTD fork.
The logic covered is:

- **Command-parameter encoders.** A rail piece, a track run, a station, a
  waypoint, a single signal and a signal run are each turned into a host
  command: a tile, two 32-bit parameters and a build or remove opcode.
  The parameters are packed with `|`, `<<` and `SB(...)` exactly as the
  source packs them, as `bv32` values. Each packing has a field decoder
  (`GB`) and a round-trip lemma.
- **Signal track choice.** The track a signal click lands on, from the
  tile's track bits and the click position inside the tile.
- **Autodirection terraform planner.** For the polyline tool, this plans
  the two corner lines to level beside a dragged segment, the raise or
  level mode of each, and the order of level commands and the chained
  rail command. Tile heights and the host's verdict on each trial
  command are inputs.
- **Toolbar and picker state.** This covers:
  - the remove button and the global remove-mode flag;
  - the polyline tool's open/snap decision table;
  - the station picker's size settings, repaired against a station type's
    disallowed-size masks;
  - the signal picker's selection, convert toggle and density counter;
  - the depot picker's direction and rotation.
- **Two map scans.** These are the neighbour preference of
  `FindRailsToConnect` and the rail-type choice of `SetDefaultRailGui`.
  The map is given as data.

Modules:

| file | module | what |
|---|---|---|
| `types.dfy` | `RailTypes` | tiles, commands, host enumeration values, `SB`/`GB`/`HasBit` |
| `commands.dfy` | `RailCommands` | encoders, decoders, round trips, signal track choice |
| `autodir.dfy` | `Autodir` | corner table, level modes, plan, rail callback |
| `toolbar.dfy` | `Toolbar` | polyline decision, the `RailToolbar` class |
| `station_picker.dfy` | `StationPicker` | size repair functions, the `StationSettings` class |
| `signal_picker.dfy` | `SignalPicker` | widget ↔ signal mapping, the `SignalPickerWindow` class |
| `depot_picker.dfy` | `DepotPicker` | direction rotation, the `DepotPickerWindow` class |
| `default_rail.dfy` | `DefaultRail` | `FindRailsToConnect`, `SetDefaultRailGui` |

Pure code (encoders, decision tables, the corner table, the planner) is
modelled as functions with lemmas. Code that updates state in place is
modelled as classes whose methods change their fields: the toolbar's
buttons, the station size settings with their counting loops, the signal
picker's counter and the depot direction. The loops of the source stay
loops, with their invariants.

Host enumeration values come from the host's headers, which are not part
of this model. They are written out as named constants:

- `Track`: X = 0 … RIGHT = 5, `INVALID_TRACK` = 0xFF.
- `TrackBits`: UPPER = 0x04, LOWER = 0x08, LEFT = 0x10, RIGHT = 0x20.
- `SignalType`: NORMAL = 0, PBS = 4, PBS_ONEWAY = 5 = `SIGTYPE_LAST`.
- `SIG_ELECTRIC` = 0 and `SIG_SEMAPHORE` = 1.
- `AXIS_X` = 0 and `AXIS_Y` = 1.
- `LM_LEVEL` = 0 and `LM_RAISE` = 2.
- `STAT_CLASS_WAYP` = 1 and `INVALID_STATION` = 0xFFFF.
- `RAILTYPE_END` = 64.
- `DiagDirection` NE…NW = 0…3, with the automatic depot direction 4 (`DIAGDIR_END`).
- Signal picker widgets: the semaphore row from 1, the electric row from
  7 = 1 + `SIGTYPE_LAST` + 1, then convert, the density label and the two
  density buttons.

## Model

| member | source | states |
|---|---|---|
| `RailCommands.GenericPlaceRailCmd` | src/rail_gui.cpp:110-124 | The opcode is REMOVE_SINGLE_RAIL iff remove mode is on. The tile is the clicked tile and p1 is the rail type. For any track number below 8, p2 decodes back to the track and the auto-remove flag. |
| `RailCommands.SingleRailP2RoundTrip` | src/rail_gui.cpp:114 | Track in bits 0-2 and auto-remove in bit 3 decode back, and no bit above 3 is set. |
| `RailCommands.SingleRailRemoveOnlyChangesOpcode` | src/rail_gui.cpp:112-118 | The remove flag changes the opcode of the single-rail command and nothing else. |
| `RailCommands.TrackRunP2RoundTrip` | src/rail_gui.cpp:388-402 | Rail type (bits 0-5), track (bits 6-8) and auto-remove (bit 11) decode back when the rail type is below 64 and the track below 8. Bits 9-10 and 12-31 stay clear. |
| `RailCommands.DoRailroadTrackCmd` | src/rail_gui.cpp:388-402 | The command goes on the start tile with the end tile as p1. The opcode is REMOVE_RAILROAD_TRACK iff remove mode is on. p2 decodes back to rail type, track and flag. |
| `RailCommands.TrackRunRemoveOnlyChangesOpcode` | src/rail_gui.cpp:388-402 | The remove flag changes the opcode of the track-run command and nothing else. |
| `RailCommands.StationP1RoundTrip` | src/rail_gui.cpp:223 | Station p1 (rail type bits 0-5, axis bit 6, tracks bits 8-15, length bits 16-23, fn bit 24) decodes back when each value fits its field. Nothing is set above bit 24. |
| `RailCommands.StationP2RoundTrip` | src/rail_gui.cpp:224 | Station p2 decodes back to class and type, with INVALID_STATION (build a new station) in bits 16-31. |
| `RailCommands.FootprintInvolution` | src/rail_gui.cpp:1227-1231 | The dragged area's (w, h) gives tracks and length by the same AXIS_X swap. Swapping twice gives back the area, so the drag-to-size and size-to-footprint conversions are inverse. |
| `RailCommands.PlaceFixedStation` | src/rail_gui.cpp:210-233 | A fixed-size station is built at the clicked tile. The area shown for joining has the swapped footprint, and p1 and p2 decode back to the picker's settings. |
| `RailCommands.PlaceDraggedStation` | src/rail_gui.cpp:1220-1237 | A dragged station is built at the area's north tile, with the dragged area for joining. p1 decodes to the rail type, the orientation, the area's extents swapped on AXIS_X as tracks and length, and the fn flag. p2 decodes to class, type and INVALID_STATION. |
| `RailCommands.DraggedStationCoversArea` | src/rail_gui.cpp:1227-1237 | The footprint of the decoded tracks and length is exactly the dragged rectangle. |
| `RailCommands.PlaceDraggedWaypoint` | src/rail_gui.cpp:1036-1041 | A dragged waypoint packs the area's width and height unswapped, and the waypoint class and type go in p2. Both decode back. |
| `RailCommands.WaypointProbeIsOneTileWaypoint` | src/rail_gui.cpp:193 | The request issued on a tile with no valid axis equals the request for a 1×1 default waypoint along X of rail type 0. |
| `RailCommands.RemoveFromStationCmd` | src/rail_gui.cpp:1024-1035 | Removing from a dragged station or waypoint goes on the end tile with the start tile as p1. p2 is 1 (keep the rail) iff the fn modifier is not held. |
| `RailCommands.ConvertRailCmd` | src/rail_gui.cpp:1018-1020 | Rail conversion goes on the end tile with the start tile as p1. p2 decodes to the rail type (bits 0-5) and the fn flag (bit 6), with nothing above. |
| `RailCommands.CycleTypes` | src/rail_gui.cpp:265-269 | Cycling starts at NORMAL when both settings say "all", and at PBS otherwise. It always ends at SIGTYPE_LAST, and the result fits 6 bits. |
| `RailCommands.SignalP1RoundTrip` | src/rail_gui.cpp:256-283 | Single-signal p1 decodes back to the track and the fn flag. With the picker open it holds the picker's variant, type and convert flag; otherwise a one-way path signal of the year's variant, without convert. The cycle set is in bits 9-14. |
| `RailCommands.ResolveSignalTrackBits` | src/rail_gui.cpp:244-250 | Vertical track bits resolve to RIGHT iff x ≤ y, otherwise LEFT. Horizontal bits alone resolve to UPPER iff x + y ≤ 15, otherwise LOWER. Other bits are left alone. |
| `RailCommands.FindFirstTrack` | src/rail_gui.cpp:252 | The result is INVALID_TRACK exactly for no bits (or 0xFF). Otherwise it is the lowest track whose bit is set. |
| `RailCommands.SignalTrackChoice` | src/rail_gui.cpp:242-252 | A tile with a vertical piece yields RIGHT/LEFT by the diagonal, and the horizontal test never overrides this. Otherwise a horizontal piece yields UPPER/LOWER by the anti-diagonal. |
| `RailCommands.GenericPlaceSignals` | src/rail_gui.cpp:240-290 | In remove mode it issues REMOVE_SIGNALS with the chosen track as p1. Otherwise it issues BUILD_SIGNALS with p1 decoding to that track and the selection. p2 is 0 in both cases. |
| `RailCommands.SignalTrackP2RoundTrip` | src/rail_gui.cpp:549-572 | Signal-run p2 decodes back to the drag direction (low 3 bits of the draw style), variant, fn flag, type, density (bits 24-31) and "vary distance" (bit 10). Bits 3 and 5 are clear. |
| `RailCommands.HandleAutoSignalPlacement` | src/rail_gui.cpp:547-582 | A one-tile selection is exactly a single-signal click on the end tile. A drag is BUILD/REMOVE_SIGNAL_TRACK from start to end with the packed p2. |
| `Autodir.DiagonalTestsExact` | src/rail_gui.cpp:431-432 | The unsigned `eq`/`ez` tests agree with exact equality of x − y and x + y for coordinates below 2^30. |
| `Autodir.CornerTable` | src/rail_gui.cpp:433-505 | Only the twelve poly directions get corner lines; any other direction gets none. Diagonal directions are flagged diagonal. Every line runs from a corner of the start tile to a corner of the end tile. |
| `Autodir.StraightXLines` | src/rail_gui.cpp:435-444 | For an X drag along one row, the two lines run along x, one tile apart. |
| `Autodir.StraightYLines` | src/rail_gui.cpp:445-454 | For a Y drag along one column, the two lines run along y, one tile apart. |
| `Autodir.DiffDiagonalLines` | src/rail_gui.cpp:455-478 | A LEFT/RIGHT drag ending on the start's x − y diagonal, or half a tile off it on its own side, gets two neighbouring diagonal lines. |
| `Autodir.SumDiagonalLines` | src/rail_gui.cpp:479-502 | The same for UPPER/LOWER drags and the x + y anti-diagonal. |
| `Autodir.LevelP2` | src/rail_gui.cpp:418-420 | Bit 0 is the diagonal flag. Bits 1-2 are RAISE iff this line's corner is lower than the other's, and LEVEL otherwise. Nothing is set above bit 2. |
| `Autodir.AtMostOneRaised` | src/rail_gui.cpp:419-420 | The two lines are never both raised, and equal heights level both. |
| `Autodir.DoAutodirTerraform` | src/rail_gui.cpp:406-428 | The rail command runs exactly once, at the end: chained after the last level command issued, or directly when both trials fail. The level commands issued are exactly those whose trial passed, first line first. |
| `Autodir.HandleAutodirTerraform` | src/rail_gui.cpp:430-506 | An unrecognised direction issues nothing (the source returns true). Otherwise the plan runs the rail once at the end. The level commands it issues are exactly those of the corner table's two lines, with modes from the heights of their start corners, that pass their trial, first line first. The rail runs directly as the last step iff no level command passed; otherwise it is chained after the last level command. |
| `Autodir.RailCallback` | src/rail_gui.cpp:407-415 | The rail command runs unless the trial says "already built" with a known end. A failed run returns false before storing snap points. Otherwise snap points are stored iff an end is known outside estimate mode. Storing snap points implies no estimate mode and the result `res`; a false result comes from `res` or a failed run. |
| `Autodir.OverbuildIsSilent` | src/rail_gui.cpp:408-411 | A segment already built with a known end is not run again, and the callback returns `res`. |
| `Autodir.AutodirPlacementCmd` | src/rail_gui.cpp:517-519 | A one-tile selection issues the single-rail command on the end tile, a drag the track-run command from start to end. Either is a remove command iff remove mode is on. The single-rail command carries the rail type as p1, and its p2 decodes back to the drag's track and the auto-remove flag. The track-run command's p2 decodes back to the rail type, the track and the auto-remove flag. |
| `Autodir.AutodirPlacementRoute` | src/rail_gui.cpp:511-539 | The terraform planner takes over exactly for the terraforming polyline outside estimate and remove mode. In estimate mode, outside the polyline tool or in remove mode the command always runs, and snap points are stored iff it succeeded, an end is known and estimate mode is off. A skipped run means an already-built segment with a known end. |
| `Autodir.PolylinePlacementIsRailCallback` | src/rail_gui.cpp:525-538 | The plain polyline drag executes the command and stores snap points exactly as the terraform planner's rail callback does (:407-415). |
| `Toolbar.PolylineDecision` | src/rail_gui.cpp:759-780 | The "polyrail" hotkey snaps and closes only a tool open in snapping mode. The "new_polyrail" hotkey never snaps and closes only a tool open in non-snapping mode. An fn-click never closes: it switches an open tool's mode and opens a closed tool snapping. A plain click toggles with snapping off. |
| `Toolbar.PolyrailHotkeyAlternates` | src/rail_gui.cpp:768-770 | Repeated "polyrail" hotkey presses alternate between closed and open in snapping mode. |
| `Toolbar.PlainClickTwiceRestores` | src/rail_gui.cpp:777-780 | Two plain clicks restore the open/closed state, non-snapping if open. |
| `Toolbar.FnClickOnClosedToolSnaps` | src/rail_gui.cpp:762-776 | An fn-click on a closed tool opens it in snapping mode, although the comment says non-snapping. |
| `Toolbar.RailToolbar.constructor` | src/rail_gui.cpp:615-621 | A new toolbar has the remove button disabled and no last action. |
| `Toolbar.RailToolbar.ToggleRemove` | src/rail_gui.cpp:324-331 | The remove button's lowered state flips, remove mode equals its new state, and nothing else changes. |
| `Toolbar.RailToolbar.ClickRemove` | src/rail_gui.cpp:359-362 | A disabled remove button ignores the click. Otherwise the click toggles remove as above. |
| `Toolbar.RailToolbar.UpdateRemoveWidgetStatus` | src/rail_gui.cpp:675-704 | Remove itself changes nothing. After a track, waypoint, station or signal button, remove is enabled exactly while that button is lowered. After any other button, remove is disabled and raised. |
| `Toolbar.RailToolbar.AbortPlacement` | src/rail_gui.cpp:1055-1060 | Aborting the toolbar's placement raises every button and disables remove, leaving remove mode, snap mode and the last action alone. |
| `Toolbar.RailToolbar.ClickPolyrail` | src/rail_gui.cpp:759-788 | The tool is open exactly as the decision table says. The snap mode changes only when the tool is open. When the open state does not change, the buttons, remove mode and its disabled state are untouched. Closing aborts the placement (every button raised, remove disabled). Opening aborts the toolbar's own placement first, if any, then lowers the polyline button. When the open state changes, remove mode takes the value the tail of `OnClick` gives it (:870-873). The last action becomes the polyline button. |
| `Toolbar.RailToolbar.PolyrailHotkey` | src/rail_gui.cpp:889-892 | A polyline hotkey acts as a hotkey click under the hotkey's row of the table. When it changes the open state it leaves remove mode off; after an abort no button but the polyline button is lowered and remove is disabled. |
| `StationPicker.NotFullHasClearBit` | src/rail_gui.cpp:1295-1298 | Any mask other than 0xFF has a clear bit below 8, so the counting loop stops. |
| `StationPicker.FixedSize` | src/rail_gui.cpp:1288-1314 | An allowed size stays. A disallowed size becomes the smallest allowed one (between 1 and 8) when the mask is not 0xFF, and 1 when it is. |
| `StationPicker.RepairedOther` | src/rail_gui.cpp:1727-1738 | An allowed value stays. A disallowed value becomes the first allowed value among 1..7, or stays when bits 0-6 are all set. |
| `StationPicker.FirstAllowedBelow7` | src/rail_gui.cpp:1730-1736 | The search finds a clear bit among bits 0-6 iff one exists, and then it finds the first. |
| `StationPicker.StationSettings.FixNumTracks` | src/rail_gui.cpp:1292-1301 | The track count is repaired in place to `FixedSize`, and the other settings do not change. |
| `StationPicker.StationSettings.FixPlatLength` | src/rail_gui.cpp:1303-1312 | The platform length is repaired in place to `FixedSize`, and the other settings do not change. |
| `StationPicker.StationSettings.CheckSelectedSize` | src/rail_gui.cpp:1288-1314 | With no spec, or in drag-and-drop mode, nothing changes. Otherwise both sizes become `FixedSize` of their masks, and both stay within 1..8. |
| `StationPicker.StationSettings.SelectNumTracks` | src/rail_gui.cpp:1712-1745 | It selects n tracks and turns drag-and-drop off. The platform length is repaired against the spec, and the orientation does not change. |
| `StationPicker.StationSettings.SelectPlatLength` | src/rail_gui.cpp:1747-1780 | It selects length n and turns drag-and-drop off. The track count is repaired against the spec, and the orientation does not change. |
| `StationPicker.StationSettings.ToggleDragDrop` | src/rail_gui.cpp:1782-1815 | Drag-and-drop mode flips. The length and then the track count are repaired against the spec. |
| `StationPicker.StationSettings.SetOrientation` | src/rail_gui.cpp:1702-1710 | The clicked axis is selected, and the sizes do not change. |
| `StationPicker.StationSettings.Rotate` | src/rail_gui.cpp:1480-1486 | The orientation becomes the other axis, and the sizes do not change. |
| `StationPicker.RotateTwiceRestores` | src/rail_gui.cpp:1482 | Rotating twice restores the orientation. |
| `StationPicker.OnlyEightAllowed` | src/rail_gui.cpp:1296-1299 | With only size 8 allowed (mask 0x7F), `CheckSelectedSize` picks 8, which has no button, while a platform click leaves the disallowed value. |
| `SignalPicker.SignalWidget` | src/rail_gui.cpp:2153 | A signal's button is one of the twelve signal buttons, and it is in the electric row iff the variant is electric. |
| `SignalPicker.WidgetOfSignalDecodes` | src/rail_gui.cpp:2153-2156 | Decoding a signal's button (type = offset mod SIGTYPE_LAST + 1, electric iff at or past ELECTRIC_NORM) gives back that signal. |
| `SignalPicker.DecodedSignalWidget` | src/rail_gui.cpp:2153-2156 | Every signal button is the button of the signal it decodes to. |
| `SignalPicker.DensityAfter` | src/rail_gui.cpp:2170-2182 | Decrease lowers the density by one above 1, increase raises it by one below 20, and both do nothing at their bound. Any other button leaves it. The density stays within 1..20. |
| `SignalPicker.DensityStepsInverse` | src/rail_gui.cpp:2170-2182 | Away from the bounds, decrease and increase undo each other. |
| `SignalPicker.SignalPickerWindow.OnInvalidateData` | src/rail_gui.cpp:2195-2204 | The selected signal's button is lowered, and the convert button is lowered iff convert mode is on. Each density button is disabled exactly at its bound. |
| `SignalPicker.SignalPickerWindow.constructor` | src/rail_gui.cpp:2070-2076 | A new signal picker shows the current selection: it ends by bringing its buttons in line as `OnInvalidateData` does. |
| `SignalPicker.SignalPickerWindow.OnClick` | src/rail_gui.cpp:2138-2188 | A signal button selects its decoded signal and, in remove mode, toggles the toolbar's remove button: a lowered one is raised and remove mode ends; a raised one is lowered and remove mode stays on. The toolbar's other buttons, snap mode and last action do not change. Convert flips the flag. The density steps by `DensityAfter`. Afterwards exactly the selected signal's button is lowered and the density buttons are disabled exactly at the bounds. |
| `DepotPicker.RotatedRight` | src/rail_gui.cpp:2341 | A quarter turn clockwise: NE to SE, SE to SW, SW to NW and NW back to NE. |
| `DepotPicker.FourTurnsRestore` | src/rail_gui.cpp:2341 | Four quarter turns restore every direction. |
| `DepotPicker.TurnsReachEveryDirection` | src/rail_gui.cpp:2341 | Every direction is reached from NE in at most three quarter turns. |
| `DepotPicker.DepotPickerWindow.constructor` | src/rail_gui.cpp:2285-2289 | A new depot picker lowers exactly the button of the current direction. |
| `DepotPicker.DepotPickerWindow.OnClick` | src/rail_gui.cpp:2315-2330 | The clicked direction (or automatic) is selected and exactly its button is lowered. |
| `DepotPicker.DepotPickerWindow.Rotate` | src/rail_gui.cpp:2338-2347 | A fixed direction turns a quarter clockwise, and exactly its button is lowered. The automatic direction stays selected. |
| `DefaultRail.FindRailsToConnect` | src/rail_gui.cpp:584-607 | The result is the directions whose station or plain rail heads into the tile, or, when there are none, the directions with plain rail. |
| `DefaultRail.ConnectChoiceSound` | src/rail_gui.cpp:589-606 | Every chosen direction has rail. A station is chosen only when it heads in. Rail that does not head in is chosen only when nothing does. |
| `DefaultRail.MostUsedRailType` | src/rail_gui.cpp:2550-2560 | The loop counts rail tiles per type and returns the most used type, the first of equals as `std::max_element` picks it, with its count. |
| `DefaultRail.FirstMostUsedUnique` | src/rail_gui.cpp:2560 | The first most-used rail type is unique. |
| `DefaultRail.FirstAvailable` | src/rail_gui.cpp:2566-2571 | The result is the first available type in the sorted list, or RAILTYPE_BEGIN (0) if none is available. |
| `DefaultRail.LastAvailable` | src/rail_gui.cpp:2573-2578 | The result is the last available type in the sorted list, or RAILTYPE_BEGIN (0) if none is available. |
| `DefaultRail.SetDefaultRailGui` | src/rail_gui.cpp:2542-2586 | Without a valid company nothing is chosen. Setting 2 gives the most used type, and the first available one when the map has no rail. Setting 0 gives the first available type and setting 1 the last. |

## Notes

- **fn-click on a closed polyline tool.** The comment above the
  polyline decision table says such a click opens the tool in
  non-snapping mode. The code gives `do_snap = !was_open || !was_snap`,
  which is true for a closed tool. The model follows the code, and
  `Toolbar.FnClickOnClosedToolSnaps` states the difference.
- **`CheckSelectedSize` can pick 8.** When only bit 7 of a mask is clear
  (mask 0x7F), it picks 8, a size the picker has no button for. The
  click handlers search only 1..7 and in that case leave the disallowed
  value as it is (`StationPicker.OnlyEightAllowed`).
- **Global flags as fields.** `_remove_button_clicked` and the rail snap
  mode are fields of the toolbar class. `_cur_signal_type`,
  `_cur_signal_variant`, `_convert_signal_button` and
  `drag_signals_density` are fields of the signal picker. The station
  size settings and `_railstation.orientation` are fields of
  `StationSettings`. `_build_depot_direction` is a field of the depot
  picker.
- **Signal click in inverted remove mode.** The comment in the signal
  picker's click handler says an active remove button is disabled. The
  code toggles it. When remove mode was switched on by the fn modifier
  without lowering the button (:870-873), the toggle lowers the button
  and remove mode stays on. The model follows the code.
- **Pushing a tool button.** `HandlePlacePushButton` and
  `SetObjectToPlace` are host code, not part of this model. As the
  polyline click uses them: closing a lowered tool resets the placement,
  which runs this toolbar's `OnPlaceObjectAbort`. Opening a tool first
  aborts the current placement, which is this toolbar's abort when it
  owns that placement (the `ownsPlacement` parameter), then lowers the
  button.
- **Signal picker and the toolbar.** The signal picker is opened from the
  toolbar, so the toolbar it finds by window id is given to it as a
  (non-null) parameter.
- **Area bounds.** `PlaceDraggedStation` and `PlaceDraggedWaypoint`
  require the dragged area to be under 256 tiles on each side. The drag
  is capped at the station spread setting (at most 64), so the 8-bit
  fields never overflow. `PlaceFixedStation`'s sizes are 8-bit settings.
- **`eq`/`ez` tests.** The source computes them with unsigned 32-bit
  subtraction and addition; the model computes them modulo 2^32.
  `Autodir.DiagonalTestsExact` shows they match exact equality on maps
  below 2^30 tiles per side. The corner-line geometry lemmas take the
  exact reading as a precondition.
- **Host queries are inputs.** Tile heights are a function `Tile -> nat`,
  and the verdict of each trial level-land command is a function
  `Command -> bool`. The neighbours' "heads into the tile" tests
  (`DiagdirReachesTracks`) arrive as booleans. Rail-tile types arrive as
  a sequence.

## Left out

- Command execution, `CMD_MSG` error strings, command callbacks (`CcPlaySound_CONSTRUCTION_RAIL`, `CcStation`, `CcTerraform`) and sounds. The host decides success; the model records the command issued.
- `ShowSelectStationIfNeeded` / `ShowSelectWaypointIfNeeded`, the join dialogs. The model returns the command together with the area the dialog would be shown for.
- `citymania::UseImprovedStationJoin` and the CityMania station-join, blueprint, `RailToolbar_IsRemoveInverted` and `RailToolbar_UpdateRemoveWidgetStatus` helpers. Their bodies are not part of this model; the inversion choice is a parameter of `ClickPolyrail`.
- `Toolbar.RailToolbar.ClickRemove`: the station-builder branch of `BuildRailClick_Remove` (:364-383) is not modelled, because it only resizes the viewport selection (`SetTileSelectSize`, `VpSetPlaceSizingLimit`).
- `Toolbar.RailToolbar.UpdateRemoveWidgetStatus` is modelled as the window's own method; the toolbar's `OnClick` calls a CityMania helper in its place (:876), so the model does not chain it after `ClickPolyrail`.
- `RailToolbar_CtrlChanged` (:338-351) is not modelled, because nothing in the file calls it any more.
- The other buttons of the toolbar's `OnClick` (track, depot, waypoint, station, signal, bridge, tunnel, demolish, convert), because each only starts a placement tool in the host (`HandlePlacePushButton`), and the tools' `OnPlaceObject` handlers (tunnel, bridge, depot, single waypoint) other than the ones modelled.
- The rest of `OnPlaceObjectAbort` (:1057, :1063-1070): closing the picker windows and the station-join window and clearing the catchment display, which belong to other windows.
- The placement dispatch in `OnPlaceMouseUp` (:999-1050) is a switch on the drag kind; each of its commands is modelled on its own (`AutodirPlacementCmd`, `HandleAutoSignalPlacement`, `ConvertRailCmd`, `RemoveFromStationCmd`, `PlaceDraggedStation`, `PlaceDraggedWaypoint`). The demolish area, the bridge window and the blueprint copy are left out as host calls. `StoreRailPlacementEndpoints` is recorded only as whether snap points are stored.
- `DepotPicker.DepotPickerWindow.Rotate`: `citymania::RotateAutodetection` for the automatic direction is a host call; the model only states that the automatic direction stays selected.
- Station picker button states (lowered platform buttons), because only the settings they display are modelled.
- Widget layout tables, window descriptions, hotkey tables, drawing, sizing, string parameters, the station-class list and filter, NewGRF availability callbacks and the rail type drop-down. These are toolkit and rendering code.
- The map scan of `SetDefaultRailGui`, which tile types carry rail, and `GetRailType` are given as a sequence of the rail types of the rail-carrying tiles.
