/**
 * Two map scans of the rail interface: which neighbouring rails a new
 * piece should connect to (`FindRailsToConnect`), and which rail type the
 * toolbar starts with (`SetDefaultRailGui`).  The map is given as data:
 * the four neighbours of a tile, or the rail type of every tile that
 * carries rail.
 */
module DefaultRail {
  import opened RailTypes

  /* ---------------- FindRailsToConnect ---------------- */

  /**
   * What lies in one diagonal direction of the tile: a tile with station
   * rail (a rail station or a rail waypoint), a plain rail tile, or anything
   * else (a rail depot, a level crossing, a tile without rail).  `reaches`
   * is the host's verdict
   * whether the neighbour's track bits meet `DiagdirReachesTracks` for
   * that direction.
   */
  datatype Neighbour = StationRail(reaches: bool) | PlainRail(reaches: bool) | NoRail

  predicate Reaches(n: Neighbour)
  {
    !n.NoRail? && n.reaches
  }

  /** The directions (`DiagDirection` 0..3) whose rail, station or plain, heads into the tile. */
  function Directed(nbs: seq<Neighbour>): set<nat>
    requires |nbs| == 4
  {
    set d: nat | d < 4 && Reaches(nbs[d])
  }

  /** The directions with plain rail, heading into the tile or not. */
  function Passing(nbs: seq<Neighbour>): set<nat>
    requires |nbs| == 4
  {
    set d: nat | d < 4 && nbs[d].PlainRail?
  }

  /**
   * `FindRailsToConnect`: scan the four neighbours, collecting the
   * directions whose rail heads into the tile and those with plain rail;
   * prefer the first set when it is not empty.  The `RoadBits` result is
   * the set of its directions.
   */
  method FindRailsToConnect(nbs: seq<Neighbour>) returns (r: set<nat>)
    requires |nbs| == 4
    ensures r == (if Directed(nbs) != {} then Directed(nbs) else Passing(nbs))
  {
    var directed: set<nat> := {};
    var passing: set<nat> := {};
    for d := 0 to 4
      invariant directed == set e: nat | e < d && Reaches(nbs[e])
      invariant passing == set e: nat | e < d && nbs[e].PlainRail?
    {
      match nbs[d]
      case StationRail(reaches) =>
        if reaches {
          directed := directed + {d};
        }
      case PlainRail(reaches) =>
        passing := passing + {d};
        if reaches {
          directed := directed + {d};
        }
      case NoRail =>
    }
    if directed != {} {
      return directed;
    }
    return passing;
  }

  /**
   * Every direction chosen leads to rail; a station is chosen only when it
   * heads into the tile, and plain rail that does not head in is chosen
   * only when nothing does.
   */
  lemma ConnectChoiceSound(nbs: seq<Neighbour>, d: nat)
    requires |nbs| == 4
    requires d in (if Directed(nbs) != {} then Directed(nbs) else Passing(nbs))
    ensures d < 4 && !nbs[d].NoRail?
    ensures nbs[d].StationRail? ==> nbs[d].reaches
    ensures !nbs[d].reaches ==> forall e: nat :: e < 4 ==> !Reaches(nbs[e])
  {
    if !nbs[d].reaches && exists e: nat :: e < 4 && Reaches(nbs[e]) {
      var e: nat :| e < 4 && Reaches(nbs[e]);
      assert e in Directed(nbs);
    }
  }

  /* ---------------- SetDefaultRailGui ---------------- */

  /** The number of rail tiles of rail type `rt`; a tile without rail is `None`. */
  function Count(tiles: seq<Option<nat>>, rt: nat): nat
  {
    if tiles == [] then 0
    else Count(tiles[..|tiles| - 1], rt) + (if tiles[|tiles| - 1] == Some(rt) then 1 else 0)
  }

  /** `rt` is the most used rail type, and the first of several equally used ones (as `std::max_element` picks). */
  ghost predicate IsFirstMostUsed(tiles: seq<Option<nat>>, rt: nat)
  {
    && rt < RAILTYPE_END
    && (forall r: nat :: r < RAILTYPE_END ==> Count(tiles, r) <= Count(tiles, rt))
    && (forall r: nat :: r < rt ==> Count(tiles, r) < Count(tiles, rt))
  }

  /** Only one rail type is the first most used one. */
  lemma FirstMostUsedUnique(tiles: seq<Option<nat>>, a: nat, b: nat)
    requires IsFirstMostUsed(tiles, a) && IsFirstMostUsed(tiles, b)
    ensures a == b
  {
    assert Count(tiles, a) == Count(tiles, b);
    assert a < b ==> Count(tiles, a) < Count(tiles, b);
    assert b < a ==> Count(tiles, b) < Count(tiles, a);
  }

  /** The tiles that carry rail have rail types below `RAILTYPE_END`. */
  predicate RailTypesValid(tiles: seq<Option<nat>>)
  {
    forall i :: 0 <= i < |tiles| && tiles[i].Some? ==> tiles[i].value < RAILTYPE_END
  }

  /** Case 2 of `SetDefaultRailGui`: count the rail tiles per rail type and take the first maximum. */
  method MostUsedRailType(tiles: seq<Option<nat>>) returns (rt: nat, n: nat)
    requires RailTypesValid(tiles)
    ensures IsFirstMostUsed(tiles, rt)
    ensures n == Count(tiles, rt)
  {
    var count := new nat[RAILTYPE_END](_ => 0);
    for i := 0 to |tiles|
      invariant forall r :: 0 <= r < RAILTYPE_END ==> count[r] == Count(tiles[..i], r)
    {
      assert tiles[..i + 1][..i] == tiles[..i];
      if tiles[i].Some? {
        count[tiles[i].value] := count[tiles[i].value] + 1;
      }
    }
    assert tiles[..|tiles|] == tiles;
    rt := 0;
    for r := 1 to RAILTYPE_END
      invariant rt < r
      invariant forall q :: 0 <= q < r ==> count[q] <= count[rt]
      invariant forall q :: 0 <= q < rt ==> count[q] < count[rt]
    {
      if count[r] > count[rt] {
        rt := r;
      }
    }
    n := count[rt];
  }

  /** Case 0: the first available rail type in the sorted list, or `RAILTYPE_BEGIN` (0) if none is. */
  function FirstAvailable(sorted: seq<nat>, avail: nat -> bool): (r: nat)
    ensures (forall i :: 0 <= i < |sorted| ==> !avail(sorted[i])) ==> r == 0
    ensures (exists i :: 0 <= i < |sorted| && avail(sorted[i])) ==>
              exists i :: 0 <= i < |sorted| && sorted[i] == r && avail(r) && forall j :: 0 <= j < i ==> !avail(sorted[j])
  {
    if sorted == [] then 0
    else if avail(sorted[0]) then sorted[0]
    else
      var r := FirstAvailable(sorted[1..], avail);
      assert forall i :: 1 <= i < |sorted| ==> sorted[i] == sorted[1..][i - 1];
      r
  }

  /** Case 1: the last available rail type in the sorted list, or `RAILTYPE_BEGIN` (0) if none is. */
  function LastAvailable(sorted: seq<nat>, avail: nat -> bool): (r: nat)
    ensures (forall i :: 0 <= i < |sorted| ==> !avail(sorted[i])) ==> r == 0
    ensures (exists i :: 0 <= i < |sorted| && avail(sorted[i])) ==>
              exists i :: 0 <= i < |sorted| && sorted[i] == r && avail(r) && forall j :: i < j < |sorted| ==> !avail(sorted[j])
  {
    if sorted == [] then 0
    else if avail(sorted[|sorted| - 1]) then sorted[|sorted| - 1]
    else
      var r := LastAvailable(sorted[..|sorted| - 1], avail);
      assert forall i :: 0 <= i < |sorted| - 1 ==> sorted[i] == sorted[..|sorted| - 1][i];
      r
  }

  /**
   * `SetDefaultRailGui`: nothing without a valid local company; otherwise
   * by the `default_rail_type` setting the most used rail type (falling
   * back to the first available one when the map has no rail), the first
   * available one, or the last available one.
   */
  method SetDefaultRailGui(validCompany: bool, setting: nat, tiles: seq<Option<nat>>, sorted: seq<nat>, avail: nat -> bool)
    returns (r: Option<nat>)
    requires setting <= 2
    requires RailTypesValid(tiles)
    ensures r.None? <==> !validCompany
    ensures r.Some? && setting == 2 && (exists t: nat :: t < RAILTYPE_END && Count(tiles, t) > 0) ==> IsFirstMostUsed(tiles, r.value)
    ensures r.Some? && setting == 2 && (forall t: nat :: t < RAILTYPE_END ==> Count(tiles, t) == 0) ==> r.value == FirstAvailable(sorted, avail)
    ensures r.Some? && setting == 0 ==> r.value == FirstAvailable(sorted, avail)
    ensures r.Some? && setting == 1 ==> r.value == LastAvailable(sorted, avail)
  {
    if !validCompany {
      return None;
    }
    if setting == 2 {
      var rt, n := MostUsedRailType(tiles);
      if n > 0 {
        return Some(rt);
      }
    }
    if setting == 1 {
      return Some(LastAvailable(sorted, avail));
    }
    return Some(FirstAvailable(sorted, avail));
  }
}
