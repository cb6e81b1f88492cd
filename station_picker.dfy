/**
 * The rail station picker's size settings: the selected number of tracks,
 * platform length, drag-and-drop mode and orientation, and how they are
 * repaired against a station type's "disallowed" masks (bit n - 1 set
 * means n tracks, or a length of n, is not allowed).
 */
module StationPicker {
  import opened RailTypes

  /** The two 8-bit masks of a `StationSpec` that the picker consults. */
  datatype StationSpec = StationSpec(disallowedPlatforms: bv8, disallowedLengths: bv8)

  /** The first clear bit of `mask` from bit `i` on, or 8 when bits i..7 are all set. */
  function FirstClearBit(mask: bv8, i: nat): (k: nat)
    requires i <= 8
    decreases 8 - i
    ensures i <= k <= 8
    ensures k < 8 ==> !HasBit(mask, k)
    ensures forall j :: i <= j < k ==> HasBit(mask, j)
  {
    if i == 8 || !HasBit(mask, i) then i else FirstClearBit(mask, i + 1)
  }

  /** A mask whose eight bits are all set is 0xFF (`UINT8_MAX`). */
  lemma {:induction false} AllBitsSet(mask: bv8)
    requires forall j :: 0 <= j < 8 ==> HasBit(mask, j)
    ensures mask == 0xFF
  {
    assert HasBit(mask, 0) && HasBit(mask, 1) && HasBit(mask, 2) && HasBit(mask, 3);
    assert HasBit(mask, 4) && HasBit(mask, 5) && HasBit(mask, 6) && HasBit(mask, 7);
  }

  /** Any mask other than 0xFF has a clear bit, so the search for one stops below 8. */
  lemma NotFullHasClearBit(mask: bv8)
    requires mask != 0xFF
    ensures FirstClearBit(mask, 0) < 8
  {
    if FirstClearBit(mask, 0) == 8 {
      AllBitsSet(mask);
    }
  }

  /**
   * What `CheckSelectedSize` makes of one size setting `n`: an allowed
   * value stays; a disallowed one becomes the smallest allowed value,
   * or 1 when every bit of the mask is set.
   */
  function FixedSize(mask: bv8, n: nat): (m: nat)
    requires n >= 1
    ensures 1 <= m
    ensures !HasBit(mask, n - 1) ==> m == n
    ensures HasBit(mask, n - 1) && mask == 0xFF ==> m == 1
    ensures HasBit(mask, n - 1) && mask != 0xFF ==>
              m <= 8 && !HasBit(mask, m - 1) && forall j :: 0 <= j < m - 1 ==> HasBit(mask, j)
  {
    if !HasBit(mask, n - 1) then n
    else if mask == 0xFF then 1
    else
      NotFullHasClearBit(mask);
      FirstClearBit(mask, 0) + 1
  }

  /**
   * What a platform click does to the other dimension: a disallowed value
   * becomes the first allowed value among 1..7; if none of those is allowed
   * it stays as it is.
   */
  function RepairedOther(mask: bv8, cur: nat): (m: nat)
    requires cur >= 1
    ensures 1 <= m
    ensures !HasBit(mask, cur - 1) ==> m == cur
    ensures HasBit(mask, cur - 1) && m != cur ==>
              m <= 7 && !HasBit(mask, m - 1) && forall j :: 0 <= j < m - 1 ==> HasBit(mask, j)
    ensures HasBit(mask, cur - 1) && m == cur ==> forall j :: 0 <= j < 7 ==> HasBit(mask, j)
  {
    if HasBit(mask, cur - 1) && FirstClearBit(mask, 0) < 7 then FirstClearBit(mask, 0) + 1 else cur
  }

  /**
   * The `for (uint i = 0; i < 7; i++)` search of the platform click
   * handlers: the first clear bit among bits 0..6, if any.
   */
  method FirstAllowedBelow7(mask: bv8) returns (found: bool, i: nat)
    ensures found <==> FirstClearBit(mask, 0) < 7
    ensures found ==> i == FirstClearBit(mask, 0)
  {
    i := 0;
    while i < 7
      invariant 0 <= i <= 7
      invariant forall j :: 0 <= j < i ==> HasBit(mask, j)
    {
      if !HasBit(mask, i) {
        return true, i;
      }
      i := i + 1;
    }
    return false, i;
  }

  /** `_settings_client.gui.station_*` and `_railstation.orientation`. */
  class StationSettings {
    var numtracks: nat
    var platlength: nat
    var dragdrop: bool
    var orientation: Axis

    /** Both sizes lie in 1..8 (the settings allow 1..7; `CheckSelectedSize` can reach 8). */
    predicate Valid()
      reads this
    {
      1 <= numtracks <= 8 && 1 <= platlength <= 8
    }

    constructor(numtracks0: nat, platlength0: nat, dragdrop0: bool, orientation0: Axis)
      requires 1 <= numtracks0 <= 7 && 1 <= platlength0 <= 7
      ensures Valid()
      ensures numtracks == numtracks0 && platlength == platlength0
      ensures dragdrop == dragdrop0 && orientation == orientation0
    {
      numtracks := numtracks0;
      platlength := platlength0;
      dragdrop := dragdrop0;
      orientation := orientation0;
    }

    /** The first half of `CheckSelectedSize`: repair the number of tracks in place. */
    method FixNumTracks(platforms: bv8)
      requires Valid()
      modifies this
      ensures Valid()
      ensures numtracks == FixedSize(platforms, old(numtracks))
      ensures platlength == old(platlength) && dragdrop == old(dragdrop) && orientation == old(orientation)
    {
      if HasBit(platforms, numtracks - 1) {
        numtracks := 1;
        if platforms != 0xFF {
          NotFullHasClearBit(platforms);
          while HasBit(platforms, numtracks - 1)
            invariant 1 <= numtracks <= FirstClearBit(platforms, 0) + 1
            invariant forall j :: 0 <= j < numtracks - 1 ==> HasBit(platforms, j)
            invariant platlength == old(platlength) && dragdrop == old(dragdrop) && orientation == old(orientation)
            decreases FirstClearBit(platforms, 0) + 1 - numtracks
          {
            numtracks := numtracks + 1;
          }
        }
      }
    }

    /** The second half of `CheckSelectedSize`: repair the platform length in place. */
    method FixPlatLength(lengths: bv8)
      requires Valid()
      modifies this
      ensures Valid()
      ensures platlength == FixedSize(lengths, old(platlength))
      ensures numtracks == old(numtracks) && dragdrop == old(dragdrop) && orientation == old(orientation)
    {
      if HasBit(lengths, platlength - 1) {
        platlength := 1;
        if lengths != 0xFF {
          NotFullHasClearBit(lengths);
          while HasBit(lengths, platlength - 1)
            invariant 1 <= platlength <= FirstClearBit(lengths, 0) + 1
            invariant forall j :: 0 <= j < platlength - 1 ==> HasBit(lengths, j)
            invariant numtracks == old(numtracks) && dragdrop == old(dragdrop) && orientation == old(orientation)
            decreases FirstClearBit(lengths, 0) + 1 - platlength
          {
            platlength := platlength + 1;
          }
        }
      }
    }

    /**
     * `CheckSelectedSize`: with no station spec or in drag-and-drop mode
     * nothing changes; otherwise each size that its mask disallows is reset
     * to 1 and counted up to the first allowed value (unless every value is
     * disallowed).
     */
    method CheckSelectedSize(spec: Option<StationSpec>)
      requires Valid()
      modifies this
      ensures Valid()
      ensures spec.None? || old(dragdrop) ==> numtracks == old(numtracks) && platlength == old(platlength)
      ensures spec.Some? && !old(dragdrop) ==>
                numtracks == FixedSize(spec.value.disallowedPlatforms, old(numtracks))
                && platlength == FixedSize(spec.value.disallowedLengths, old(platlength))
      ensures dragdrop == old(dragdrop) && orientation == old(orientation)
    {
      if spec.None? || dragdrop {
        return;
      }
      FixNumTracks(spec.value.disallowedPlatforms);
      FixPlatLength(spec.value.disallowedLengths);
    }

    /**
     * A click on platform-number button `n`: select `n` tracks, leave
     * drag-and-drop mode and repair the platform length against the spec.
     */
    method SelectNumTracks(n: nat, spec: Option<StationSpec>)
      requires Valid()
      requires 1 <= n <= 7
      modifies this
      ensures Valid()
      ensures numtracks == n && !dragdrop
      ensures platlength == (if spec.Some? then RepairedOther(spec.value.disallowedLengths, old(platlength)) else old(platlength))
      ensures orientation == old(orientation)
    {
      numtracks := n;
      dragdrop := false;
      if spec.Some? && HasBit(spec.value.disallowedLengths, platlength - 1) {
        var found, i := FirstAllowedBelow7(spec.value.disallowedLengths);
        if found {
          platlength := i + 1;
        }
      }
    }

    /**
     * A click on platform-length button `n`: select length `n`, leave
     * drag-and-drop mode and repair the number of tracks against the spec.
     */
    method SelectPlatLength(n: nat, spec: Option<StationSpec>)
      requires Valid()
      requires 1 <= n <= 7
      modifies this
      ensures Valid()
      ensures platlength == n && !dragdrop
      ensures numtracks == (if spec.Some? then RepairedOther(spec.value.disallowedPlatforms, old(numtracks)) else old(numtracks))
      ensures orientation == old(orientation)
    {
      platlength := n;
      dragdrop := false;
      if spec.Some? && HasBit(spec.value.disallowedPlatforms, numtracks - 1) {
        var found, i := FirstAllowedBelow7(spec.value.disallowedPlatforms);
        if found {
          numtracks := i + 1;
        }
      }
    }

    /** The drag-and-drop button: toggle the mode and repair length, then number of tracks. */
    method ToggleDragDrop(spec: Option<StationSpec>)
      requires Valid()
      modifies this
      ensures Valid()
      ensures dragdrop == !old(dragdrop)
      ensures platlength == (if spec.Some? then RepairedOther(spec.value.disallowedLengths, old(platlength)) else old(platlength))
      ensures numtracks == (if spec.Some? then RepairedOther(spec.value.disallowedPlatforms, old(numtracks)) else old(numtracks))
      ensures orientation == old(orientation)
    {
      dragdrop := !dragdrop;
      if spec.Some? && HasBit(spec.value.disallowedLengths, platlength - 1) {
        var found, i := FirstAllowedBelow7(spec.value.disallowedLengths);
        if found {
          platlength := i + 1;
        }
      }
      if spec.Some? && HasBit(spec.value.disallowedPlatforms, numtracks - 1) {
        var found, i := FirstAllowedBelow7(spec.value.disallowedPlatforms);
        if found {
          numtracks := i + 1;
        }
      }
    }

    /** The orientation buttons: select axis `a`. */
    method SetOrientation(a: Axis)
      modifies this
      ensures orientation == a
      ensures numtracks == old(numtracks) && platlength == old(platlength) && dragdrop == old(dragdrop)
    {
      orientation := a;
    }

    /** The rotate hotkey: switch to the other axis. */
    method Rotate()
      modifies this
      ensures orientation == OtherAxis(old(orientation))
      ensures numtracks == old(numtracks) && platlength == old(platlength) && dragdrop == old(dragdrop)
    {
      orientation := OtherAxis(orientation);
    }
  }

  /** Rotating twice restores the orientation. */
  lemma RotateTwiceRestores(a: Axis)
    ensures OtherAxis(OtherAxis(a)) == a
  {
  }

  /**
   * With every length but 8 disallowed (mask 0x7F), `CheckSelectedSize`
   * picks 8, a value the picker has no button for, while a platform click
   * leaves a disallowed length untouched.
   */
  lemma OnlyEightAllowed()
    ensures FixedSize(0x7F, 1) == 8
    ensures RepairedOther(0x7F, 1) == 1
  {
    assert FirstClearBit(0x7F, 0) == 7 by {
      assert HasBit(0x7F, 0) && HasBit(0x7F, 1) && HasBit(0x7F, 2) && HasBit(0x7F, 3);
      assert HasBit(0x7F, 4) && HasBit(0x7F, 5) && HasBit(0x7F, 6) && !HasBit(0x7F, 7);
    }
  }
}
