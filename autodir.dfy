/**
 * The autodirection terraform planner of the polyline rail tool: before a
 * track segment is laid over uneven ground, the two lines of tile corners
 * along either side of the segment are levelled (or raised), and the rail
 * command is chained after the last levelling that can succeed.  Tile
 * heights and the host's verdicts on trial commands are inputs.
 */
module Autodir {
  import opened RailTypes
  import RailCommands

  /** The drag direction of the polyline tool (`_thd.cm_poly_dir`); anything else is `OtherDir`. */
  datatype PolyDir =
    | XNE | XSW | YSE | YNW
    | LeftN | RightN | LeftS | RightS
    | UpperE | LowerE | UpperW | LowerW
    | OtherDir
  {
    predicate IsDiagonal() { !(this.XNE? || this.XSW? || this.YSE? || this.YNW? || this.OtherDir?) }
  }

  /* ---------------- the diagonal tests ---------------- */

  const U32: int := 0x1_0000_0000

  /** `TileX(t) - TileY(t)` in unsigned 32-bit arithmetic. */
  function UDiff(t: Tile): (d: int)
    ensures 0 <= d < U32
  {
    (t.x - t.y) % U32
  }

  /** `TileX(t) + TileY(t)` in unsigned 32-bit arithmetic. */
  function USum(t: Tile): (d: int)
    ensures 0 <= d < U32
  {
    (t.x + t.y) % U32
  }

  /** `eq`: start and end lie on one x - y diagonal (as the source computes it, modulo 2^32). */
  function SameDiff(start: Tile, end: Tile): bool
  {
    UDiff(end) == UDiff(start)
  }

  /** `ez`: start and end lie on one x + y anti-diagonal (modulo 2^32). */
  function SameSum(start: Tile, end: Tile): bool
  {
    USum(end) == USum(start)
  }

  function Diff(t: Tile): int { t.x - t.y }
  function Sum(t: Tile): int { t.x + t.y }

  /** Remainder modulo 2^32 of a value within half a range of zero. */
  lemma ModOfSmall(a: int)
    requires -U32 / 2 <= a < U32 / 2
    ensures a % U32 == (if a >= 0 then a else a + U32)
  {
    var q := a / U32;
    assert a == q * U32 + a % U32;
    assert -1 <= q <= 0;
  }

  /**
   * On any map whose coordinates stay below 2^30 (real maps are far
   * smaller) the unsigned tests agree with exact equality, so the 32-bit
   * wrap-around never changes a decision.
   */
  lemma DiagonalTestsExact(start: Tile, end: Tile)
    requires start.x < U32 / 4 && start.y < U32 / 4 && end.x < U32 / 4 && end.y < U32 / 4
    ensures SameDiff(start, end) <==> Diff(end) == Diff(start)
    ensures SameSum(start, end) <==> Sum(end) == Sum(start)
  {
    ModOfSmall(end.x - end.y);
    ModOfSmall(start.x - start.y);
    ModOfSmall(end.x + end.y);
    ModOfSmall(start.x + start.y);
  }

  /* ---------------- the corner table ---------------- */

  /** The two lines of corners to level: from s1 to e1 and from s2 to e2, diagonally or not. */
  datatype Corners = Corners(diagonal: bool, s1: Tile, e1: Tile, s2: Tile, e2: Tile)

  function B(b: bool): nat { if b then 1 else 0 }

  /** Whether `c` is one of the four corners of tile `t` (the tile itself or a neighbour by +1 in x and/or y). */
  predicate CornerOf(c: Tile, t: Tile)
  {
    c.x - t.x in {0, 1} && c.y - t.y in {0, 1}
  }

  /**
   * The side of the start tile's diagonal on which a diagonal drag may end
   * half a tile off: +1 or -1 in x - y for LEFT/RIGHT, in x + y for UPPER/LOWER.
   */
  function HalfStep(dir: PolyDir): int
  {
    match dir
    case LeftN | LeftS | LowerE | LowerW => 1
    case _ => -1
  }

  /** Both lines run along x, at the start tile's north and south edges. */
  predicate LinesAlongX(c: Corners)
  {
    c.s1.y == c.e1.y && c.s2.y == c.e2.y && c.s2.y == c.s1.y + 1
  }

  /** Both lines run along y, at the start tile's two edges. */
  predicate LinesAlongY(c: Corners)
  {
    c.s1.x == c.e1.x && c.s2.x == c.e2.x && c.s2.x == c.s1.x + 1
  }

  /** Each line keeps x - y constant, and the two lines are neighbouring diagonals. */
  predicate LinesAlongDiff(c: Corners)
  {
    Diff(c.s1) == Diff(c.e1) && Diff(c.s2) == Diff(c.e2) && (Diff(c.s1) - Diff(c.s2) == 1 || Diff(c.s2) - Diff(c.s1) == 1)
  }

  /** Each line keeps x + y constant, and the two lines are neighbouring anti-diagonals. */
  predicate LinesAlongSum(c: Corners)
  {
    Sum(c.s1) == Sum(c.e1) && Sum(c.s2) == Sum(c.e2) && (Sum(c.s1) - Sum(c.s2) == 1 || Sum(c.s2) - Sum(c.s1) == 1)
  }

  /**
   * The corner table of `HandleAutodirTerraform`: for each drag direction
   * and the outcome of the `eq`/`ez` tests, the two corner lines to level.
   * Every line runs from a corner of the start tile to a corner of the end
   * tile; a straight drag gets two parallel lines along its axis, and a
   * diagonal drag that ends on the start tile's diagonal, or half a tile
   * off it, gets two neighbouring diagonal lines.
   */
  function CornerTable(dir: PolyDir, start: Tile, end: Tile, eq: bool, ez: bool): (r: Option<Corners>)
    ensures r.None? <==> dir.OtherDir?
    ensures r.Some? ==> r.value.diagonal == dir.IsDiagonal()
    ensures r.Some? ==> (CornerOf(r.value.s1, start) && CornerOf(r.value.s2, start)
                         && CornerOf(r.value.e1, end) && CornerOf(r.value.e2, end))
  {
    match dir
    case XNE => Some(Corners(false, AddXY(start, 1, 0), end, AddXY(start, 1, 1), AddXY(end, 0, 1)))
    case XSW => Some(Corners(false, start, AddXY(end, 1, 0), AddXY(start, 0, 1), AddXY(end, 1, 1)))
    case YSE => Some(Corners(false, start, AddXY(end, 0, 1), AddXY(start, 1, 0), AddXY(end, 1, 1)))
    case YNW => Some(Corners(false, AddXY(start, 0, 1), end, AddXY(start, 1, 1), AddXY(end, 1, 0)))
    case LeftN => Some(Corners(true, AddXY(start, 1, 0), AddXY(end, B(eq), 0), AddXY(start, 1, 1), AddXY(end, 0, B(!eq))))
    case RightN => Some(Corners(true, AddXY(start, 0, 1), AddXY(end, 0, B(eq)), AddXY(start, 1, 1), AddXY(end, B(!eq), 0)))
    case LeftS => Some(Corners(true, AddXY(start, 1, 0), AddXY(end, 1, B(!eq)), start, AddXY(end, B(eq), 1)))
    case RightS => Some(Corners(true, AddXY(start, 0, 1), AddXY(end, B(!eq), 1), start, AddXY(end, 1, B(eq))))
    case UpperE => Some(Corners(true, start, AddXY(end, 0, B(!ez)), AddXY(start, 1, 0), AddXY(end, B(!ez), 1)))
    case LowerE => Some(Corners(true, AddXY(start, 1, 1), AddXY(end, B(ez), 1), AddXY(start, 1, 0), AddXY(end, 0, B(ez))))
    case UpperW => Some(Corners(true, start, AddXY(end, B(!ez), 0), AddXY(start, 0, 1), AddXY(end, 1, B(!ez))))
    case LowerW => Some(Corners(true, AddXY(start, 1, 1), AddXY(end, 1, B(ez)), AddXY(start, 0, 1), AddXY(end, B(ez), 0)))
    case OtherDir => None
  }

  /** A straight drag along x gets two parallel corner lines along x, one tile apart. */
  lemma StraightXLines(dir: PolyDir, start: Tile, end: Tile, eq: bool, ez: bool)
    requires dir.XNE? || dir.XSW?
    requires end.y == start.y
    ensures LinesAlongX(CornerTable(dir, start, end, eq, ez).value)
  {
  }

  /** A straight drag along y gets two parallel corner lines along y, one tile apart. */
  lemma StraightYLines(dir: PolyDir, start: Tile, end: Tile, eq: bool, ez: bool)
    requires dir.YSE? || dir.YNW?
    requires end.x == start.x
    ensures LinesAlongY(CornerTable(dir, start, end, eq, ez).value)
  {
  }

  /**
   * A LEFT/RIGHT drag that ends on the start tile's x - y diagonal, or half
   * a tile off it on the direction's own side, gets two neighbouring
   * diagonal corner lines.
   */
  lemma DiffDiagonalLines(dir: PolyDir, start: Tile, end: Tile, eq: bool, ez: bool)
    requires dir.LeftN? || dir.RightN? || dir.LeftS? || dir.RightS?
    requires eq <==> Diff(end) == Diff(start)
    requires Diff(end) == Diff(start) || Diff(end) == Diff(start) + HalfStep(dir)
    ensures LinesAlongDiff(CornerTable(dir, start, end, eq, ez).value)
  {
    match dir
    case LeftN =>
    case RightN =>
    case LeftS =>
    case RightS =>
  }

  /** The same for UPPER/LOWER drags and the x + y anti-diagonal. */
  lemma SumDiagonalLines(dir: PolyDir, start: Tile, end: Tile, eq: bool, ez: bool)
    requires dir.UpperE? || dir.LowerE? || dir.UpperW? || dir.LowerW?
    requires ez <==> Sum(end) == Sum(start)
    requires Sum(end) == Sum(start) || Sum(end) == Sum(start) + HalfStep(dir)
    ensures LinesAlongSum(CornerTable(dir, start, end, eq, ez).value)
  {
    match dir
    case UpperE =>
    case LowerE =>
    case UpperW =>
    case LowerW =>
  }

  /* ---------------- level modes ---------------- */

  /**
   * p2 of a level-land command: the mode in bits 1-2 (raise when this
   * line's reference corner is lower than the other line's, level
   * otherwise) and the diagonal flag in bit 0.
   */
  function LevelP2(diagonal: bool, own: nat, other: nat): (p2: Word)
    ensures GB(p2, 0, 1) == BoolBit(diagonal)
    ensures GB(p2, 1, 2) == (if own < other then LM_RAISE else LM_LEVEL)
    ensures p2 >> 3 == 0
  {
    ((if own < other then LM_RAISE else LM_LEVEL) << 1) | BoolBit(diagonal)
  }

  /** At most one of the two lines is raised; with equal heights both are levelled. */
  lemma AtMostOneRaised(diagonal: bool, h1: nat, h2: nat)
    ensures !(GB(LevelP2(diagonal, h1, h2), 1, 2) == LM_RAISE && GB(LevelP2(diagonal, h2, h1), 1, 2) == LM_RAISE)
    ensures h1 == h2 ==> GB(LevelP2(diagonal, h1, h2), 1, 2) == LM_LEVEL && GB(LevelP2(diagonal, h2, h1), 1, 2) == LM_LEVEL
  {
  }

  /** The level-land command for the line from `s` to `e` (issued on `e`, with `s` as p1). */
  function LevelCmd(s: Tile, e: Tile, p2: Word): Command
  {
    Command(e, TileRef(s), Bits(p2), LevelLand)
  }

  /* ---------------- the plan ---------------- */

  /**
   * One step of the plan: a level-land command, possibly with the rail
   * callback chained after it, or the rail callback run at once.
   */
  datatype Step = Level(cmd: Command, thenRail: bool) | Rail

  /** The level-land commands of a plan, in order. */
  function LevelCmds(steps: seq<Step>): seq<Command>
  {
    if steps == [] then []
    else (if steps[0].Level? then [steps[0].cmd] else []) + LevelCmds(steps[1..])
  }

  /** The rail callback is run once, at the end: by the last step and by no earlier one. */
  predicate RailRunsOnceAtEnd(steps: seq<Step>)
  {
    && |steps| >= 1
    && (steps[|steps| - 1].Rail? || steps[|steps| - 1].thenRail)
    && forall i :: 0 <= i < |steps| - 1 ==> steps[i].Level? && !steps[i].thenRail
  }

  /**
   * The level-land commands whose trial passes, first line first: the
   * line from `s1` to `e1` with this line's mode against the other's
   * reference height, then the line from `s2` to `e2`.
   */
  function PassingLevels(c: Corners, h1: nat, h2: nat, levelOk: Command -> bool): seq<Command>
  {
    var l1 := LevelCmd(c.s1, c.e1, LevelP2(c.diagonal, h1, h2));
    var l2 := LevelCmd(c.s2, c.e2, LevelP2(c.diagonal, h2, h1));
    (if levelOk(l1) then [l1] else []) + (if levelOk(l2) then [l2] else [])
  }

  /**
   * `DoAutodirTerraform`: try both level commands; issue those that pass,
   * first line first, and chain the rail callback after the last one issued,
   * or run it directly when neither passes.
   */
  function DoAutodirTerraform(c: Corners, h1: nat, h2: nat, levelOk: Command -> bool): (steps: seq<Step>)
    ensures RailRunsOnceAtEnd(steps)
    ensures LevelCmds(steps) == PassingLevels(c, h1, h2, levelOk)
    ensures steps[|steps| - 1].Rail? <==> LevelCmds(steps) == []
  {
    var l1 := LevelCmd(c.s1, c.e1, LevelP2(c.diagonal, h1, h2));
    var l2 := LevelCmd(c.s2, c.e2, LevelP2(c.diagonal, h2, h1));
    var l1Fail := !levelOk(l1);
    var l2Fail := !levelOk(l2);
    if l1Fail && l2Fail then [Rail]
    else if l2Fail then [Level(l1, true)]
    else if !l1Fail then
      assert [Level(l1, false), Level(l2, true)][1..] == [Level(l2, true)];
      assert LevelCmds([Level(l2, true)]) == [l2];
      [Level(l1, false), Level(l2, true)]
    else [Level(l2, true)]
  }

  /** What `HandleAutodirTerraform` does: nothing (and report success) for another direction, or a plan. */
  datatype Outcome = NothingIssued | Issued(steps: seq<Step>)

  /**
   * `HandleAutodirTerraform`: look up the corner lines for the drag
   * direction, read the heights of the two reference corners and plan.
   */
  function HandleAutodirTerraform(dir: PolyDir, start: Tile, end: Tile, height: Tile -> nat, levelOk: Command -> bool): (r: Outcome)
    ensures r.NothingIssued? <==> dir.OtherDir?
    ensures r.Issued? ==> RailRunsOnceAtEnd(r.steps)
    ensures r.Issued? ==> forall i :: 0 <= i < |r.steps| ==> r.steps[i].Rail? || levelOk(r.steps[i].cmd)
    ensures r.Issued? ==>
              var c := CornerTable(dir, start, end, SameDiff(start, end), SameSum(start, end)).value;
              LevelCmds(r.steps) == PassingLevels(c, height(c.s1), height(c.s2), levelOk)
    ensures r.Issued? ==> (r.steps[|r.steps| - 1].Rail? <==> LevelCmds(r.steps) == [])
  {
    match CornerTable(dir, start, end, SameDiff(start, end), SameSum(start, end))
    case None => NothingIssued
    case Some(c) =>
      var steps := DoAutodirTerraform(c, height(c.s1), height(c.s2), levelOk);
      Issued(steps)
  }

  /* ---------------- the rail callback ---------------- */

  /** What the rail callback did: whether it executed the rail command, stored snap points, and its result. */
  datatype CallbackEffect = CallbackEffect(executed: bool, storedEndpoints: bool, result: bool)

  /**
   * The rail callback of `DoAutodirTerraform`.  A trial of the rail command
   * tells whether the segment is already built and whether an end tile is
   * known; the command is executed unless both hold, and a failed execution
   * returns false at once.  Otherwise the snap points are stored when an end
   * tile is known outside estimate mode, and `res` is returned.
   */
  function RailCallback(alreadyBuilt: bool, endKnownAfterTrial: bool, execOk: bool, endKnownAfterExec: bool,
                        estimate: bool, res: bool): (e: CallbackEffect)
    ensures e.executed <==> !(alreadyBuilt && endKnownAfterTrial)
    ensures e.executed && !execOk ==> !e.result && !e.storedEndpoints
    ensures !(e.executed && !execOk) ==> e.result == res
    ensures e.storedEndpoints <==>
              !(e.executed && !execOk) && !estimate && (if e.executed then endKnownAfterExec else endKnownAfterTrial)
    ensures e.storedEndpoints ==> !estimate && e.result == res
    ensures !e.result ==> !res || (e.executed && !execOk)
  {
    var executed := !alreadyBuilt || !endKnownAfterTrial;
    if executed && !execOk then CallbackEffect(true, false, false)
    else
      var endKnown := if executed then endKnownAfterExec else endKnownAfterTrial;
      CallbackEffect(executed, !estimate && endKnown, res)
  }

  /** Which of the two rail commands a polyline or autorail drag issues. */
  function AutodirPlacementCmd(oneTile: bool, start: Tile, end: Tile, track: Word, railtype: Word,
                               autoRemoveSignals: bool, remove: bool): (c: Command)
    ensures oneTile ==> c.tile == end && c.op in {BuildSingleRail, RemoveSingleRail}
    ensures !oneTile ==> c.tile == start && c.p1 == TileRef(end) && c.op in {BuildRailroadTrack, RemoveRailroadTrack}
    ensures c.op in {RemoveSingleRail, RemoveRailroadTrack} <==> remove
    ensures oneTile ==> c.p1 == Bits(railtype) && c.p2.Bits?
    ensures oneTile && track < 8 ==>
              RailCommands.DecodeSingleRailP2(c.p2.w) == RailCommands.SingleRailP2(track, autoRemoveSignals)
    ensures !oneTile && railtype < 64 && track < 8 ==>
              c.p2.Bits? && RailCommands.DecodeTrackRunP2(c.p2.w) == RailCommands.TrackRunP2(railtype, track, autoRemoveSignals)
  {
    if oneTile then RailCommands.GenericPlaceRailCmd(end, track, railtype, autoRemoveSignals, remove)
    else RailCommands.DoRailroadTrackCmd(start, end, track, railtype, autoRemoveSignals, remove)
  }

  /** What `HandleAutodirPlacement` does with the rail command: hand it to the terraform planner, or run it. */
  datatype PlacementRoute = ToTerraform | Ran(executed: bool, storedEndpoints: bool)

  /**
   * `HandleAutodirPlacement`.  In estimate mode, outside the polyline tool
   * or in remove mode the command is executed and a failure ends the
   * handler.  Otherwise the terraforming polyline hands the command to
   * `HandleAutodirTerraform`; the plain polyline first tries it and skips
   * a segment that is already built with a known end.  Snap points are
   * stored after any run that did not fail, outside estimate mode, when an
   * end tile is known.
   */
  function AutodirPlacementRoute(estimate: bool, polyMode: bool, remove: bool, polyTerra: bool,
                                 alreadyBuilt: bool, endKnownAfterTrial: bool, execOk: bool,
                                 endKnownAfterExec: bool): (r: PlacementRoute)
    ensures r.ToTerraform? <==> !estimate && polyMode && !remove && polyTerra
    ensures estimate || !polyMode || remove ==> r.executed && (r.storedEndpoints <==> execOk && !estimate && endKnownAfterExec)
    ensures r.Ran? && !r.executed ==> alreadyBuilt && endKnownAfterTrial
    ensures r.Ran? && r.storedEndpoints ==> !estimate && (r.executed ==> execOk)
  {
    if estimate || !polyMode || remove then Ran(true, execOk && !estimate && endKnownAfterExec)
    else if polyTerra then ToTerraform
    else
      var executed := !alreadyBuilt || !endKnownAfterTrial;
      if executed && !execOk then Ran(true, false)
      else Ran(executed, !estimate && (if executed then endKnownAfterExec else endKnownAfterTrial))
  }

  /**
   * The plain polyline drag runs the rail command exactly as the rail
   * callback of the terraform planner does: same execution, same snap points.
   */
  lemma PolylinePlacementIsRailCallback(alreadyBuilt: bool, endKnownAfterTrial: bool, execOk: bool,
                                        endKnownAfterExec: bool, res: bool)
    ensures var r := AutodirPlacementRoute(false, true, false, false, alreadyBuilt, endKnownAfterTrial, execOk, endKnownAfterExec);
            var e := RailCallback(alreadyBuilt, endKnownAfterTrial, execOk, endKnownAfterExec, false, res);
            r == Ran(e.executed, e.storedEndpoints)
  {
  }

  /** Re-laying a segment that is already built with a known end never executes or fails: the callback returns `res`. */
  lemma OverbuildIsSilent(execOk: bool, endKnownAfterExec: bool, estimate: bool, res: bool)
    ensures RailCallback(true, true, execOk, endKnownAfterExec, estimate, res).result == res
    ensures !RailCallback(true, true, execOk, endKnownAfterExec, estimate, res).executed
  {
  }
}
