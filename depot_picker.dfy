/**
 * The train depot picker: the selected depot direction (one of the four
 * diagonal directions, or automatic) and its rotate hotkey.
 */
module DepotPicker {

  /** `DiagDirection`: NE = 0, SE = 1, SW = 2, NW = 3; 4 (`DIAGDIR_END`) is the automatic direction. */
  const DIAGDIR_END: nat := 4
  const DEPOTDIR_AUTO: nat := DIAGDIR_END

  /** `ChangeDiagDir(d, DIAGDIRDIFF_90RIGHT)`: a quarter turn clockwise, NE -> SE -> SW -> NW -> NE. */
  function RotatedRight(d: nat): (r: nat)
    requires d < DIAGDIR_END
    ensures r < DIAGDIR_END
    ensures r != d
    ensures d < DIAGDIR_END - 1 ==> r == d + 1
    ensures d == DIAGDIR_END - 1 ==> r == 0
  {
    (d + 1) % DIAGDIR_END
  }

  /** Four quarter turns bring every direction back. */
  lemma FourTurnsRestore(d: nat)
    requires d < DIAGDIR_END
    ensures RotatedRight(RotatedRight(RotatedRight(RotatedRight(d)))) == d
  {
  }

  /** Every direction is reached from NE by some number of quarter turns (at most three). */
  lemma TurnsReachEveryDirection(d: nat)
    requires d < DIAGDIR_END
    ensures d == 0 || d == RotatedRight(0) || d == RotatedRight(RotatedRight(0))
            || d == RotatedRight(RotatedRight(RotatedRight(0)))
  {
  }

  /**
   * `BuildRailDepotWindow` with the global `_build_depot_direction`; the
   * buttons are numbered by their offset from the NE button, so button `d`
   * stands for direction `d` and button 4 for the automatic direction.
   */
  class DepotPickerWindow {
    var direction: nat
    var lowered: set<nat>

    /** Exactly the button of the selected direction is lowered. */
    ghost predicate Valid()
      reads this
    {
      direction <= DEPOTDIR_AUTO && lowered == {direction}
    }

    constructor(direction0: nat)
      requires direction0 <= DEPOTDIR_AUTO
      ensures Valid() && direction == direction0
    {
      direction := direction0;
      lowered := {direction0};
    }

    /** `OnClick` on direction button `button`: raise the old button, select and lower the new one. */
    method OnClick(button: nat)
      requires Valid()
      requires button <= DEPOTDIR_AUTO
      modifies this
      ensures Valid()
      ensures direction == button
    {
      lowered := lowered - {direction};
      direction := button;
      lowered := lowered + {direction};
    }

    /**
     * The rotate hotkey: a fixed direction turns a quarter clockwise; the
     * automatic direction stays selected (the host then rotates its
     * automatic detection).
     */
    method Rotate()
      requires Valid()
      modifies this
      ensures Valid()
      ensures old(direction) < DIAGDIR_END ==> direction == RotatedRight(old(direction))
      ensures old(direction) == DEPOTDIR_AUTO ==> direction == DEPOTDIR_AUTO && lowered == old(lowered)
    {
      if direction < DIAGDIR_END {
        lowered := lowered - {direction};
        direction := RotatedRight(direction);
        lowered := lowered + {direction};
      }
    }
  }
}
