/**
 * The command-parameter encoders of the rail construction interface: each
 * build request is packed into fixed-width fields of 32-bit words and paired
 * with a build or remove opcode.  Every encoder has a field decoder beside it
 * and a round-trip law: decoding the packed word gives back the fields,
 * provided each field value fits its width.
 */
module RailCommands {
  import opened RailTypes

  /* ---------------- single rail piece (GenericPlaceRailCmd) ---------------- */

  /** Fields of p2 of the single-rail command: track in bits 0-2, auto-remove-signals in bit 3. */
  datatype SingleRailP2 = SingleRailP2(track: Word, autoRemoveSignals: bool)

  function EncodeSingleRailP2(track: Word, autoRemoveSignals: bool): (w: Word)
  {
    track | (BoolBit(autoRemoveSignals) << 3)
  }

  function DecodeSingleRailP2(w: Word): SingleRailP2
  {
    SingleRailP2(GB(w, 0, 3), GB(w, 3, 1) == 1)
  }

  /** Packing a track number (0..7) and the flag is undone by the decoder; nothing spills above bit 3. */
  lemma SingleRailP2RoundTrip(track: Word, autoRemoveSignals: bool)
    requires track < 8
    ensures DecodeSingleRailP2(EncodeSingleRailP2(track, autoRemoveSignals)) == SingleRailP2(track, autoRemoveSignals)
    ensures EncodeSingleRailP2(track, autoRemoveSignals) >> 4 == 0
  {
  }

  /**
   * `GenericPlaceRailCmd`: one rail piece on `tile`.  p1 is the current rail
   * type; the remove toggle only selects the opcode.
   */
  function GenericPlaceRailCmd(tile: Tile, track: Word, railtype: Word, autoRemoveSignals: bool, remove: bool): (c: Command)
    ensures c.op == (if remove then RemoveSingleRail else BuildSingleRail)
    ensures c.tile == tile && c.p1 == Bits(railtype) && c.p2.Bits?
    ensures track < 8 ==> DecodeSingleRailP2(c.p2.w) == SingleRailP2(track, autoRemoveSignals)
  {
    var c := Command(tile, Bits(railtype), Bits(EncodeSingleRailP2(track, autoRemoveSignals)),
                     if remove then RemoveSingleRail else BuildSingleRail);
    if track < 8 then SingleRailP2RoundTrip(track, autoRemoveSignals); c else c
  }

  /** The remove toggle changes the opcode of a single-rail command and nothing else. */
  lemma SingleRailRemoveOnlyChangesOpcode(tile: Tile, track: Word, railtype: Word, autoRemoveSignals: bool)
    ensures GenericPlaceRailCmd(tile, track, railtype, autoRemoveSignals, true)
         == GenericPlaceRailCmd(tile, track, railtype, autoRemoveSignals, false).(op := RemoveSingleRail)
  {
  }

  /* ---------------- track run (DoRailroadTrackCmd) ---------------- */

  /** Fields of p2 of the track-run command: rail type bits 0-5, track bits 6-8, auto-remove bit 11. */
  datatype TrackRunP2 = TrackRunP2(railtype: Word, track: Word, autoRemoveSignals: bool)

  function EncodeTrackRunP2(railtype: Word, track: Word, autoRemoveSignals: bool): (w: Word)
  {
    railtype | (track << 6) | (BoolBit(autoRemoveSignals) << 11)
  }

  function DecodeTrackRunP2(w: Word): TrackRunP2
  {
    TrackRunP2(GB(w, 0, 6), GB(w, 6, 3), GB(w, 11, 1) == 1)
  }

  /** With a rail type below 64 and a track below 8 the word decodes back; bits 9-10 and 12-31 stay clear. */
  lemma TrackRunP2RoundTrip(railtype: Word, track: Word, autoRemoveSignals: bool)
    requires railtype < 64 && track < 8
    ensures DecodeTrackRunP2(EncodeTrackRunP2(railtype, track, autoRemoveSignals))
         == TrackRunP2(railtype, track, autoRemoveSignals)
    ensures GB(EncodeTrackRunP2(railtype, track, autoRemoveSignals), 9, 2) == 0
    ensures EncodeTrackRunP2(railtype, track, autoRemoveSignals) >> 12 == 0
  {
  }

  /**
   * `DoRailroadTrackCmd`: a run of track from `start` to `end`; p1 is the end
   * tile, p2 the packed rail type, track and auto-remove flag.
   */
  function DoRailroadTrackCmd(start: Tile, end: Tile, track: Word, railtype: Word, autoRemoveSignals: bool, remove: bool): (c: Command)
    ensures c.op == (if remove then RemoveRailroadTrack else BuildRailroadTrack)
    ensures c.tile == start && c.p1 == TileRef(end) && c.p2.Bits?
    ensures railtype < 64 && track < 8 ==>
              DecodeTrackRunP2(c.p2.w) == TrackRunP2(railtype, track, autoRemoveSignals)
  {
    var c := Command(start, TileRef(end), Bits(EncodeTrackRunP2(railtype, track, autoRemoveSignals)),
                     if remove then RemoveRailroadTrack else BuildRailroadTrack);
    if railtype < 64 && track < 8 then TrackRunP2RoundTrip(railtype, track, autoRemoveSignals); c else c
  }

  /** The remove toggle changes the opcode of a track-run command and nothing else. */
  lemma TrackRunRemoveOnlyChangesOpcode(start: Tile, end: Tile, track: Word, railtype: Word, autoRemoveSignals: bool)
    ensures DoRailroadTrackCmd(start, end, track, railtype, autoRemoveSignals, true)
         == DoRailroadTrackCmd(start, end, track, railtype, autoRemoveSignals, false).(op := RemoveRailroadTrack)
  {
  }

  /* ---------------- stations and waypoints ---------------- */

  /**
   * Fields of p1 of the station and waypoint commands: rail type bits 0-5,
   * axis bit 6, track count (or width) bits 8-15, platform length (or
   * height) bits 16-23, the fn modifier bit 24.
   */
  datatype StationP1 = StationP1(railtype: Word, axis: Axis, numtracks: Word, platlength: Word, fnMod: bool)

  /** Fields of p2: station class bits 0-7, station type bits 8-15, station to join bits 16-31. */
  datatype StationP2 = StationP2(stationClass: Word, stationType: Word, joinStation: Word)

  function EncodeStationP1(railtype: Word, axis: Axis, numtracks: Word, platlength: Word, fnMod: bool): Word
  {
    railtype | (AxisBit(axis) << 6) | (numtracks << 8) | (platlength << 16) | (BoolBit(fnMod) << 24)
  }

  function DecodeStationP1(w: Word): StationP1
  {
    StationP1(GB(w, 0, 6), if GB(w, 6, 1) == 1 then AxisY else AxisX, GB(w, 8, 8), GB(w, 16, 8), GB(w, 24, 1) == 1)
  }

  function EncodeStationP2(stationClass: Word, stationType: Word): Word
  {
    stationClass | (stationType << 8) | (INVALID_STATION << 16)
  }

  function DecodeStationP2(w: Word): StationP2
  {
    StationP2(GB(w, 0, 8), GB(w, 8, 8), w >> 16)
  }

  lemma StationP1RailtypeField(railtype: Word, axis: Axis, numtracks: Word, platlength: Word, fnMod: bool)
    requires railtype < 64 && numtracks < 256 && platlength < 256
    ensures GB(EncodeStationP1(railtype, axis, numtracks, platlength, fnMod), 0, 6) == railtype
    ensures GB(EncodeStationP1(railtype, axis, numtracks, platlength, fnMod), 7, 1) == 0
  {
  }

  lemma StationP1AxisField(railtype: Word, axis: Axis, numtracks: Word, platlength: Word, fnMod: bool)
    requires railtype < 64 && numtracks < 256 && platlength < 256
    ensures GB(EncodeStationP1(railtype, axis, numtracks, platlength, fnMod), 6, 1) == AxisBit(axis)
  {
  }

  lemma StationP1SizeFields(railtype: Word, axis: Axis, numtracks: Word, platlength: Word, fnMod: bool)
    requires railtype < 64 && numtracks < 256 && platlength < 256
    ensures GB(EncodeStationP1(railtype, axis, numtracks, platlength, fnMod), 8, 8) == numtracks
    ensures GB(EncodeStationP1(railtype, axis, numtracks, platlength, fnMod), 16, 8) == platlength
  {
  }

  lemma StationP1FnField(railtype: Word, axis: Axis, numtracks: Word, platlength: Word, fnMod: bool)
    requires railtype < 64 && numtracks < 256 && platlength < 256
    ensures GB(EncodeStationP1(railtype, axis, numtracks, platlength, fnMod), 24, 1) == BoolBit(fnMod)
    ensures EncodeStationP1(railtype, axis, numtracks, platlength, fnMod) >> 25 == 0
  {
  }

  /** Station p1 decodes back to its fields when each fits its width; nothing is set above bit 24. */
  lemma StationP1RoundTrip(railtype: Word, axis: Axis, numtracks: Word, platlength: Word, fnMod: bool)
    requires railtype < 64 && numtracks < 256 && platlength < 256
    ensures DecodeStationP1(EncodeStationP1(railtype, axis, numtracks, platlength, fnMod))
         == StationP1(railtype, axis, numtracks, platlength, fnMod)
    ensures EncodeStationP1(railtype, axis, numtracks, platlength, fnMod) >> 25 == 0
  {
    StationP1RailtypeField(railtype, axis, numtracks, platlength, fnMod);
    StationP1AxisField(railtype, axis, numtracks, platlength, fnMod);
    StationP1SizeFields(railtype, axis, numtracks, platlength, fnMod);
    StationP1FnField(railtype, axis, numtracks, platlength, fnMod);
  }

  /** Station p2 decodes back to class and type, and always asks for a new station (INVALID_STATION). */
  lemma StationP2RoundTrip(stationClass: Word, stationType: Word)
    requires stationClass < 256 && stationType < 256
    ensures DecodeStationP2(EncodeStationP2(stationClass, stationType))
         == StationP2(stationClass, stationType, INVALID_STATION)
  {
  }

  /**
   * `TileArea(start, end)`: the rectangle spanned by two tiles, as its
   * north corner and its extent along x (w) and y (h).
   */
  datatype TileArea = TileArea(tile: Tile, w: nat, h: nat)

  function AreaOf(start: Tile, end: Tile): (a: TileArea)
    ensures a.w >= 1 && a.h >= 1
    ensures a.tile.x <= start.x < a.tile.x + a.w && a.tile.x <= end.x < a.tile.x + a.w
    ensures a.tile.y <= start.y < a.tile.y + a.h && a.tile.y <= end.y < a.tile.y + a.h
  {
    var x0 := if start.x <= end.x then start.x else end.x;
    var x1 := if start.x <= end.x then end.x else start.x;
    var y0 := if start.y <= end.y then start.y else end.y;
    var y1 := if start.y <= end.y then end.y else start.y;
    TileArea(Tile(x0, y0), x1 - x0 + 1, y1 - y0 + 1)
  }

  /**
   * The footprint (w along x, h along y) of a station with `numtracks`
   * tracks of `platlength` tiles: the two are swapped exactly on the X axis.
   */
  function StationFootprint(axis: Axis, numtracks: nat, platlength: nat): (wh: (nat, nat))
    ensures axis == AxisX ==> wh == (platlength, numtracks)
    ensures axis == AxisY ==> wh == (numtracks, platlength)
  {
    if axis == AxisX then (platlength, numtracks) else (numtracks, platlength)
  }

  /**
   * The swap is its own inverse: the track count and length of a dragged
   * area of extent w by h (`HandleStationPlacement`) are
   * `StationFootprint(axis, w, h)`, and their footprint is the area again.
   */
  lemma FootprintInvolution(axis: Axis, w: nat, h: nat)
    ensures StationFootprint(axis, StationFootprint(axis, w, h).0, StationFootprint(axis, w, h).1) == (w, h)
  {
  }

  /** A station build request together with the area the join dialog is shown for. */
  datatype StationRequest = StationRequest(cmd: Command, area: TileArea)

  /**
   * `PlaceRail_Station` in fixed-size mode: build a station of the picker's
   * size at `tile`; the area handed on has the footprint of that size.
   */
  function PlaceFixedStation(tile: Tile, railtype: Word, axis: Axis, numtracks: nat, platlength: nat,
                             fnMod: bool, stationClass: Word, stationType: Word): (r: StationRequest)
    requires numtracks < 256 && platlength < 256
    ensures r.cmd.op == BuildRailStation && r.cmd.tile == tile && r.area.tile == tile
    ensures (r.area.w, r.area.h) == StationFootprint(axis, numtracks, platlength)
    ensures r.cmd.p1.Bits? && r.cmd.p2.Bits?
    ensures railtype < 64 ==>
              DecodeStationP1(r.cmd.p1.w) == StationP1(railtype, axis, ByteWord(numtracks), ByteWord(platlength), fnMod)
    ensures stationClass < 256 && stationType < 256 ==>
              DecodeStationP2(r.cmd.p2.w) == StationP2(stationClass, stationType, INVALID_STATION)
  {
    var wh := StationFootprint(axis, numtracks, platlength);
    var r := StationRequest(
      Command(tile, Bits(EncodeStationP1(railtype, axis, ByteWord(numtracks), ByteWord(platlength), fnMod)),
              Bits(EncodeStationP2(stationClass, stationType)), BuildRailStation),
      TileArea(tile, wh.0, wh.1));
    var r := if railtype < 64 then StationP1RoundTrip(railtype, axis, ByteWord(numtracks), ByteWord(platlength), fnMod); r else r;
    if stationClass < 256 && stationType < 256 then StationP2RoundTrip(stationClass, stationType); r else r
  }

  /**
   * `HandleStationPlacement`: build a station over a dragged area.  The
   * track count and length come from the area with the X-axis swap; the
   * command covers exactly the dragged rectangle.
   */
  function PlaceDraggedStation(start: Tile, end: Tile, railtype: Word, axis: Axis, fnMod: bool,
                               stationClass: Word, stationType: Word): (r: StationRequest)
    requires AreaOf(start, end).w < 256 && AreaOf(start, end).h < 256
    ensures r.cmd.op == BuildRailStation && r.area == AreaOf(start, end) && r.cmd.tile == r.area.tile
    ensures r.cmd.p1.Bits? && r.cmd.p2.Bits?
    ensures railtype < 64 ==>
              DecodeStationP1(r.cmd.p1.w) == StationP1(railtype, axis,
                ByteWord(StationFootprint(axis, r.area.w, r.area.h).0),
                ByteWord(StationFootprint(axis, r.area.w, r.area.h).1), fnMod)
    ensures stationClass < 256 && stationType < 256 ==>
              DecodeStationP2(r.cmd.p2.w) == StationP2(stationClass, stationType, INVALID_STATION)
  {
    var a := AreaOf(start, end);
    var tl := StationFootprint(axis, a.w, a.h);
    var r := StationRequest(
      Command(a.tile, Bits(EncodeStationP1(railtype, axis, ByteWord(tl.0), ByteWord(tl.1), fnMod)),
              Bits(EncodeStationP2(stationClass, stationType)), BuildRailStation),
      a);
    var r := if railtype < 64 then StationP1RoundTrip(railtype, axis, ByteWord(tl.0), ByteWord(tl.1), fnMod); r else r;
    if stationClass < 256 && stationType < 256 then StationP2RoundTrip(stationClass, stationType); r else r
  }

  /** The station a drag builds covers exactly the dragged rectangle. */
  lemma DraggedStationCoversArea(start: Tile, end: Tile, railtype: Word, axis: Axis, fnMod: bool,
                                 stationClass: Word, stationType: Word)
    requires AreaOf(start, end).w < 256 && AreaOf(start, end).h < 256
    requires railtype < 64
    ensures var r := PlaceDraggedStation(start, end, railtype, axis, fnMod, stationClass, stationType);
            var p1 := DecodeStationP1(r.cmd.p1.w);
            StationFootprint(axis, p1.numtracks as nat, p1.platlength as nat) == (r.area.w, r.area.h)
  {
    var a := AreaOf(start, end);
    FootprintInvolution(axis, a.w, a.h);
  }

  /**
   * Waypoint build request over a dragged area (`OnPlaceMouseUp`): the same
   * p1 layout with the area's width and height (no swap), the waypoint
   * class in p2.
   */
  function PlaceDraggedWaypoint(start: Tile, end: Tile, railtype: Word, axis: Axis, fnMod: bool,
                                waypointType: Word): (r: StationRequest)
    requires AreaOf(start, end).w < 256 && AreaOf(start, end).h < 256
    ensures r.cmd.op == BuildRailWaypoint && r.area == AreaOf(start, end) && r.cmd.tile == r.area.tile
    ensures r.cmd.p1.Bits? && r.cmd.p2.Bits?
    ensures railtype < 64 ==>
              DecodeStationP1(r.cmd.p1.w) == StationP1(railtype, axis, ByteWord(r.area.w), ByteWord(r.area.h), fnMod)
    ensures waypointType < 256 ==>
              DecodeStationP2(r.cmd.p2.w) == StationP2(STAT_CLASS_WAYP, waypointType, INVALID_STATION)
  {
    var a := AreaOf(start, end);
    var r := StationRequest(
      Command(a.tile, Bits(EncodeStationP1(railtype, axis, ByteWord(a.w), ByteWord(a.h), fnMod)),
              Bits(EncodeStationP2(STAT_CLASS_WAYP, waypointType)), BuildRailWaypoint),
      a);
    var r := if railtype < 64 then StationP1RoundTrip(railtype, axis, ByteWord(a.w), ByteWord(a.h), fnMod); r else r;
    if waypointType < 256 then StationP2RoundTrip(STAT_CLASS_WAYP, waypointType); r else r
  }

  /**
   * `PlaceRail_Waypoint` on a tile with no valid axis: a request bound to
   * fail, issued only for its error message.
   */
  function WaypointProbe(tile: Tile): Command
  {
    Command(tile, Bits((1 << 8) | (1 << 16)), Bits(STAT_CLASS_WAYP | (INVALID_STATION << 16)), BuildRailWaypoint)
  }

  /** The probe is the request for a 1x1 default waypoint of rail type 0 along X. */
  lemma WaypointProbeIsOneTileWaypoint(tile: Tile)
    ensures WaypointProbe(tile) == PlaceDraggedWaypoint(tile, tile, 0, AxisX, false, 0).cmd
  {
  }

  /**
   * Removing part of a dragged station or waypoint (`OnPlaceMouseUp` in
   * remove mode): the command goes on the end tile with the start tile as
   * p1; p2 is 1 ("keep the rail") unless the fn modifier is held.
   */
  function RemoveFromStationCmd(start: Tile, end: Tile, waypoint: bool, fnMod: bool): (c: Command)
    ensures c.tile == end && c.p1 == TileRef(start)
    ensures c.op == (if waypoint then RemoveFromRailWaypoint else RemoveFromRailStation)
    ensures c.p2.Bits? && c.p2.w < 2 && (c.p2.w == 1 <==> !fnMod)
  {
    Command(end, TileRef(start), Bits(if fnMod then 0 else 1),
            if waypoint then RemoveFromRailWaypoint else RemoveFromRailStation)
  }

  /* ---------------- rail conversion ---------------- */

  /** Fields of p2 of the convert-rail command: the new rail type in bits 0-5, the diagonal flag in bit 6. */
  datatype ConvertRailP2 = ConvertRailP2(railtype: Word, diagonal: bool)

  function DecodeConvertRailP2(w: Word): ConvertRailP2
  {
    ConvertRailP2(GB(w, 0, 6), GB(w, 6, 1) == 1)
  }

  /**
   * Converting the rail of a dragged area (`OnPlaceMouseUp`): the command
   * goes on the end tile with the start tile as p1; the fn modifier selects
   * the diagonal area.
   */
  function ConvertRailCmd(start: Tile, end: Tile, railtype: Word, fnMod: bool): (c: Command)
    ensures c.tile == end && c.p1 == TileRef(start) && c.op == ConvertRail && c.p2.Bits?
    ensures railtype < 64 ==> DecodeConvertRailP2(c.p2.w) == ConvertRailP2(railtype, fnMod) && c.p2.w >> 7 == 0
  {
    Command(end, TileRef(start), Bits(railtype | (if fnMod then 1 << 6 else 0)), ConvertRail)
  }

  /* ---------------- signals ---------------- */

  /** Selection and settings that the signal encoders read. */
  datatype SignalSettings = SignalSettings(
    fnMod: bool,                 // the fn modifier key
    windowOpen: bool,            // the signal picker is open
    variant: SignalVariant,      // picker selection
    sigType: Word,               // picker selection, 0..SIGTYPE_LAST
    convert: bool,               // the picker's convert button
    cycleAll: bool,              // cycle_signal_types is "all"
    guiAll: bool,                // signal_gui_mode is "all"
    curYear: int,
    semaphoreBuildBefore: int,
    density: Word,               // drag_signals_density
    fixedDistance: bool)         // drag_signals_fixed_distance

  /** Which signal types a click cycles through: all from NORMAL, or only the path signals. */
  function CycleTypes(s: SignalSettings): (c: Word)
    ensures c < 64
    ensures GB(c, 3, 3) == SIGTYPE_LAST
    ensures GB(c, 0, 3) == if s.cycleAll && s.guiAll then SIGTYPE_NORMAL else SIGTYPE_PBS
  {
    if s.cycleAll && s.guiAll then (SIGTYPE_NORMAL) | (SIGTYPE_LAST << 3)
    else (SIGTYPE_PBS) | (SIGTYPE_LAST << 3)
  }

  /** The variant built without the picker: semaphores before the configured year. */
  function DefaultVariant(s: SignalSettings): SignalVariant
  {
    if s.curYear < s.semaphoreBuildBefore then Semaphore else Electric
  }

  /** Fields of p1 of the single-signal command. */
  datatype SignalP1 = SignalP1(track: Word, fnMod: bool, variant: Word, sigType: Word, convert: bool, cycle: Word)

  function DecodeSignalP1(w: Word): SignalP1
  {
    SignalP1(GB(w, 0, 3), GB(w, 3, 1) == 1, GB(w, 4, 1), GB(w, 5, 3), GB(w, 8, 1) == 1, GB(w, 9, 6))
  }

  /** p1 of `GenericPlaceSignals`, built field by field with `SB` over the track number. */
  function EncodeSignalP1(track: Word, s: SignalSettings): Word
  {
    var variant := if s.windowOpen then s.variant else DefaultVariant(s);
    var sigType := if s.windowOpen then s.sigType else SIGTYPE_PBS_ONEWAY;
    var convert := s.windowOpen && s.convert;
    var p := SB(track, 3, 1, BoolBit(s.fnMod));
    var p := SB(p, 4, 1, VariantBit(variant));
    var p := SB(p, 5, 3, sigType);
    var p := SB(p, 8, 1, BoolBit(convert));
    SB(p, 9, 6, CycleTypes(s))
  }

  lemma SignalP1Low(track: Word, s: SignalSettings)
    requires track < 8 && s.sigType < 8
    ensures GB(EncodeSignalP1(track, s), 0, 3) == track
    ensures GB(EncodeSignalP1(track, s), 3, 1) == BoolBit(s.fnMod)
  {
  }

  lemma SignalP1Selection(track: Word, s: SignalSettings)
    requires track < 8 && s.sigType < 8
    ensures GB(EncodeSignalP1(track, s), 4, 1) == VariantBit(if s.windowOpen then s.variant else DefaultVariant(s))
    ensures GB(EncodeSignalP1(track, s), 5, 3) == if s.windowOpen then s.sigType else SIGTYPE_PBS_ONEWAY
  {
  }

  lemma SignalP1High(track: Word, s: SignalSettings)
    requires track < 8 && s.sigType < 8
    ensures GB(EncodeSignalP1(track, s), 8, 1) == BoolBit(s.windowOpen && s.convert)
    ensures GB(EncodeSignalP1(track, s), 9, 6) == CycleTypes(s)
    ensures EncodeSignalP1(track, s) >> 15 == 0
  {
  }

  /**
   * Single-signal p1 decodes back to the track, the modifier, the selection
   * (the picker's, or a one-way path signal of the year's variant when the
   * picker is closed; convert only with the picker open) and the cycle set.
   */
  lemma SignalP1RoundTrip(track: Word, s: SignalSettings)
    requires track < 8 && s.sigType < 8
    ensures DecodeSignalP1(EncodeSignalP1(track, s)) == SignalP1(
              track, s.fnMod,
              VariantBit(if s.windowOpen then s.variant else DefaultVariant(s)),
              if s.windowOpen then s.sigType else SIGTYPE_PBS_ONEWAY,
              s.windowOpen && s.convert, CycleTypes(s))
  {
    SignalP1Low(track, s);
    SignalP1Selection(track, s);
    SignalP1High(track, s);
  }

  /* ---- track choice from the position inside the tile ---- */

  /**
   * The track bits a signal click resolves to, from the tile's track bits
   * and the click position (fx, fy) inside the tile: a vertical piece picks
   * RIGHT or LEFT by the diagonal fx = fy, a horizontal piece picks UPPER or
   * LOWER by the anti-diagonal fx + fy = 15.
   */
  function ResolveSignalTrackBits(bits: bv8, fx: nat, fy: nat): (r: bv8)
    ensures bits & TRACK_BIT_VERT != 0 ==> r == (if fx <= fy then TRACK_BIT_RIGHT else TRACK_BIT_LEFT)
    ensures bits & TRACK_BIT_VERT == 0 && bits & TRACK_BIT_HORZ != 0 ==>
              r == (if fx + fy <= 15 then TRACK_BIT_UPPER else TRACK_BIT_LOWER)
    ensures bits & (TRACK_BIT_VERT | TRACK_BIT_HORZ) == 0 ==> r == bits
  {
    var b := if bits & TRACK_BIT_VERT != 0 then (if fx <= fy then TRACK_BIT_RIGHT else TRACK_BIT_LEFT) else bits;
    if b & TRACK_BIT_HORZ != 0 then (if fx + fy <= 15 then TRACK_BIT_UPPER else TRACK_BIT_LOWER) else b
  }

  /** Index of the lowest set bit of `bits` at or above `i`, or 8 when there is none. */
  function LowestBitFrom(bits: bv8, i: nat): (k: nat)
    requires i <= 8
    ensures i <= k <= 8
    ensures k < 8 ==> HasBit(bits, k)
    ensures forall j :: i <= j < k ==> !HasBit(bits, j)
    decreases 8 - i
  {
    if i == 8 then 8 else if HasBit(bits, i) then i else LowestBitFrom(bits, i + 1)
  }

  /** `FindFirstTrack`: the lowest track present, or INVALID_TRACK for no bits (or the invalid bit set). */
  function FindFirstTrack(bits: bv8): (t: Word)
    ensures bits == 0 || bits == 0xFF <==> t == INVALID_TRACK
    ensures t != INVALID_TRACK ==> t < 8 && HasBit(bits, t as nat)
    ensures t != INVALID_TRACK ==> forall j :: 0 <= j < t as nat ==> !HasBit(bits, j)
  {
    if bits == 0 || bits == 0xFF then INVALID_TRACK else ByteWord(LowestBitFrom(bits, 0))
  }

  /**
   * The track a click resolves to: on a tile with a vertical piece the
   * right/left track by the side of the diagonal, else on a tile with a
   * horizontal piece the upper/lower track; a vertical choice is never
   * overridden by the horizontal test.
   */
  function ChosenSignalTrack(bits: bv8, fx: nat, fy: nat): Word
  {
    FindFirstTrack(ResolveSignalTrackBits(bits, fx, fy))
  }

  lemma SignalTrackChoice(bits: bv8, fx: nat, fy: nat)
    ensures bits & TRACK_BIT_VERT != 0 ==>
              ChosenSignalTrack(bits, fx, fy) == (if fx <= fy then TRACK_RIGHT else TRACK_LEFT)
    ensures bits & TRACK_BIT_VERT == 0 && bits & TRACK_BIT_HORZ != 0 ==>
              ChosenSignalTrack(bits, fx, fy) == (if fx + fy <= 15 then TRACK_UPPER else TRACK_LOWER)
  {
    var r := ResolveSignalTrackBits(bits, fx, fy);
    if bits & (TRACK_BIT_VERT | TRACK_BIT_HORZ) != 0 {
      assert LowestBitFrom(r, 0) == (if r == TRACK_BIT_UPPER then 2 else if r == TRACK_BIT_LOWER then 3
                                     else if r == TRACK_BIT_LEFT then 4 else 5);
    }
  }

  /**
   * `GenericPlaceSignals`: in remove mode, remove the signals of the chosen
   * track; otherwise build or cycle a signal with p1 packed from the
   * selection.
   */
  function GenericPlaceSignals(tile: Tile, trackbits: bv8, fx: nat, fy: nat, remove: bool, s: SignalSettings): (c: Command)
    ensures c.tile == tile && c.p2 == Bits(0) && c.p1.Bits?
    ensures c.op == (if remove then RemoveSignals else BuildSignals)
    ensures remove ==> c.p1.w == ChosenSignalTrack(trackbits, fx, fy)
    ensures !remove && ChosenSignalTrack(trackbits, fx, fy) != INVALID_TRACK && s.sigType < 8 ==>
              DecodeSignalP1(c.p1.w) == SignalP1(
                ChosenSignalTrack(trackbits, fx, fy), s.fnMod,
                VariantBit(if s.windowOpen then s.variant else DefaultVariant(s)),
                if s.windowOpen then s.sigType else SIGTYPE_PBS_ONEWAY,
                s.windowOpen && s.convert, CycleTypes(s))
  {
    var track := ChosenSignalTrack(trackbits, fx, fy);
    var c := if remove then Command(tile, Bits(track), Bits(0), RemoveSignals)
             else Command(tile, Bits(EncodeSignalP1(track, s)), Bits(0), BuildSignals);
    if track != INVALID_TRACK && s.sigType < 8 then SignalP1RoundTrip(track, s); c else c
  }

  /* ---- signals along a dragged track (HandleAutoSignalPlacement) ---- */

  /** Fields of p2 of the signal-track command. */
  datatype SignalTrackP2 = SignalTrackP2(trackdir: Word, variant: Word, fnMod: bool, sigType: Word,
                                         density: Word, varyDistance: bool)

  function DecodeSignalTrackP2(w: Word): SignalTrackP2
  {
    SignalTrackP2(GB(w, 0, 3), GB(w, 4, 1), GB(w, 6, 1) == 1, GB(w, 7, 3), w >> 24, GB(w, 10, 1) == 1)
  }

  /** p2 of the signal-track command: the drag's direction (low 3 bits of the draw style) and the selection. */
  function EncodeSignalTrackP2(drawstyle: Word, s: SignalSettings): Word
  {
    var variant := if s.windowOpen then s.variant else DefaultVariant(s);
    var sigType := if s.windowOpen then s.sigType else SIGTYPE_PBS_ONEWAY;
    var p := GB(drawstyle, 0, 3);
    var p := SB(p, 3, 1, 0);
    var p := SB(p, 4, 1, VariantBit(variant));
    var p := SB(p, 6, 1, BoolBit(s.fnMod));
    var p := SB(p, 7, 3, sigType);
    var p := SB(p, 24, 8, s.density);
    SB(p, 10, 1, BoolBit(!s.fixedDistance))
  }

  lemma SignalTrackP2Low(drawstyle: Word, s: SignalSettings)
    requires s.sigType < 8 && s.density < 256
    ensures GB(EncodeSignalTrackP2(drawstyle, s), 0, 3) == GB(drawstyle, 0, 3)
    ensures GB(EncodeSignalTrackP2(drawstyle, s), 3, 1) == 0
    ensures GB(EncodeSignalTrackP2(drawstyle, s), 5, 1) == 0
  {
  }

  lemma SignalTrackP2Selection(drawstyle: Word, s: SignalSettings)
    requires s.sigType < 8 && s.density < 256
    ensures GB(EncodeSignalTrackP2(drawstyle, s), 4, 1) == VariantBit(if s.windowOpen then s.variant else DefaultVariant(s))
    ensures GB(EncodeSignalTrackP2(drawstyle, s), 6, 1) == BoolBit(s.fnMod)
    ensures GB(EncodeSignalTrackP2(drawstyle, s), 7, 3) == if s.windowOpen then s.sigType else SIGTYPE_PBS_ONEWAY
  {
  }

  lemma SignalTrackP2High(drawstyle: Word, s: SignalSettings)
    requires s.sigType < 8 && s.density < 256
    ensures EncodeSignalTrackP2(drawstyle, s) >> 24 == s.density
    ensures GB(EncodeSignalTrackP2(drawstyle, s), 10, 1) == BoolBit(!s.fixedDistance)
    ensures GB(EncodeSignalTrackP2(drawstyle, s), 11, 13) == 0
  {
  }

  /** Signal-track p2 decodes back to the drag direction, the selection, the density and the distance mode. */
  lemma SignalTrackP2RoundTrip(drawstyle: Word, s: SignalSettings)
    requires s.sigType < 8 && s.density < 256
    ensures DecodeSignalTrackP2(EncodeSignalTrackP2(drawstyle, s)) == SignalTrackP2(
              GB(drawstyle, 0, 3),
              VariantBit(if s.windowOpen then s.variant else DefaultVariant(s)),
              s.fnMod,
              if s.windowOpen then s.sigType else SIGTYPE_PBS_ONEWAY,
              s.density, !s.fixedDistance)
  {
    SignalTrackP2Low(drawstyle, s);
    SignalTrackP2Selection(drawstyle, s);
    SignalTrackP2High(drawstyle, s);
  }

  /**
   * `HandleAutoSignalPlacement`: a one-tile selection is a single signal at
   * the end tile; a longer drag builds or removes signals along the track
   * from `start` to `end`.
   */
  function HandleAutoSignalPlacement(start: Tile, end: Tile, oneTile: bool, drawstyle: Word,
                                     trackbits: bv8, fx: nat, fy: nat, remove: bool, s: SignalSettings): (c: Command)
    ensures oneTile ==> c == GenericPlaceSignals(end, trackbits, fx, fy, remove, s)
    ensures !oneTile ==>
              && c.tile == start && c.p1 == TileRef(end)
              && c.op == (if remove then RemoveSignalTrack else BuildSignalTrack)
              && c.p2 == Bits(EncodeSignalTrackP2(drawstyle, s))
  {
    if oneTile then GenericPlaceSignals(end, trackbits, fx, fy, remove, s)
    else Command(start, TileRef(end), Bits(EncodeSignalTrackP2(drawstyle, s)),
                 if remove then RemoveSignalTrack else BuildSignalTrack)
  }
}
