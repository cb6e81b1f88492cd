/**
 * Shared vocabulary of the rail construction interface: map tiles, the
 * command records handed to the host engine, the host's enumeration values
 * and the bit helpers (SB/GB/HasBit) the interface packs its parameters with.
 */
module RailTypes {

  datatype Option<T> = None | Some(value: T)

  /** A 32-bit command parameter, as the host's `uint32`. */
  type Word = bv32

  /** A map tile given by its coordinates (`TileX`, `TileY`). */
  datatype Tile = Tile(x: nat, y: nat)

  /** `TILE_ADDXY`: the tile `dx` columns and `dy` rows further on. */
  function AddXY(t: Tile, dx: nat, dy: nat): Tile
  {
    Tile(t.x + dx, t.y + dy)
  }

  /** A command parameter is either a packed word or a tile index. */
  datatype Param = Bits(w: Word) | TileRef(t: Tile)

  /** The host commands the interface issues. */
  datatype Opcode =
    | BuildSingleRail | RemoveSingleRail
    | BuildRailroadTrack | RemoveRailroadTrack
    | BuildRailStation | BuildRailWaypoint
    | BuildSignals | RemoveSignals
    | BuildSignalTrack | RemoveSignalTrack
    | LevelLand | ConvertRail
    | RemoveFromRailStation | RemoveFromRailWaypoint

  /** A `CommandContainer`: target tile, two parameters and the opcode. */
  datatype Command = Command(tile: Tile, p1: Param, p2: Param, op: Opcode)

  // Track numbers (`Track`) and their bits (`TrackBits`).
  const TRACK_X: Word := 0
  const TRACK_Y: Word := 1
  const TRACK_UPPER: Word := 2
  const TRACK_LOWER: Word := 3
  const TRACK_LEFT: Word := 4
  const TRACK_RIGHT: Word := 5
  const INVALID_TRACK: Word := 0xFF

  const TRACK_BIT_UPPER: bv8 := 0x04
  const TRACK_BIT_LOWER: bv8 := 0x08
  const TRACK_BIT_LEFT: bv8 := 0x10
  const TRACK_BIT_RIGHT: bv8 := 0x20
  const TRACK_BIT_HORZ: bv8 := 0x0C
  const TRACK_BIT_VERT: bv8 := 0x30
  const TRACK_BIT_MASK: bv8 := 0x3F

  // Signal types (`SignalType`) and variants (`SignalVariant`).
  const SIGTYPE_NORMAL: Word := 0
  const SIGTYPE_PBS: Word := 4
  const SIGTYPE_PBS_ONEWAY: Word := 5
  const SIGTYPE_LAST: Word := 5

  datatype SignalVariant = Electric | Semaphore

  /** `SIG_ELECTRIC` is 0 and `SIG_SEMAPHORE` is 1. */
  function VariantBit(v: SignalVariant): (b: Word)
    ensures b < 2
    ensures b == 1 <==> v.Semaphore?
  {
    if v == Electric then 0 else 1
  }

  /** `Axis`: `AXIS_X` is 0 and `AXIS_Y` is 1. */
  datatype Axis = AxisX | AxisY

  function AxisBit(a: Axis): (b: Word)
    ensures b < 2
    ensures b == 1 <==> a.AxisY?
  {
    if a == AxisX then 0 else 1
  }

  /** `OtherAxis`. */
  function OtherAxis(a: Axis): (r: Axis)
    ensures r != a
  {
    if a == AxisX then AxisY else AxisX
  }

  // Terraform level modes (`LevelMode`).
  const LM_LEVEL: Word := 0
  const LM_RAISE: Word := 2

  const STAT_CLASS_WAYP: Word := 1
  const INVALID_STATION: Word := 0xFFFF
  /** Rail types are numbered below `RAILTYPE_END`. */
  const RAILTYPE_END: nat := 64

  function BoolBit(b: bool): (r: Word)
    ensures r < 2 && (r == 1 <==> b)
  {
    if b then 1 else 0
  }

  /** A field of `n` bits set to ones. */
  function Ones(n: nat): (m: Word)
    requires n <= 32
  {
    ((1 as Word) << n) - 1
  }

  /**
   * A count below 256 (a station's size or a track number) as the 32-bit
   * value the source shifts into a parameter; the identity on its value.
   * It is written by counting up, which the solver handles more cheaply
   * than a direct conversion.
   */
  function ByteWord(n: nat): (w: Word)
    requires n < 256
    ensures w < 256 && w as int == n
  {
    if n == 0 then 0 else ByteWord(n - 1) + 1
  }

  /** `SB(x, s, n, d)`: clear bits s..s+n-1 of x and OR in `d << s` (d is not masked). */
  function SB(x: Word, s: nat, n: nat, d: Word): (r: Word)
    requires s + n <= 32
  {
    (x & !(Ones(n) << s)) | (d << s)
  }

  /** `GB(x, s, n)`: bits s..s+n-1 of x. */
  function GB(x: Word, s: nat, n: nat): (r: Word)
    requires s + n <= 32
  {
    (x >> s) & Ones(n)
  }

  /** `HasBit(mask, i)` on an 8-bit mask: bits from 8 upward are always clear. */
  predicate HasBit(mask: bv8, i: nat)
  {
    i < 8 && (mask >> i) & 1 == 1
  }
}
