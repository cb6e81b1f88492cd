/**
 * The signal picker window: the selected signal (variant and type), the
 * convert toggle and the drag density counter, with the lowered and
 * disabled states of its buttons.
 */
module SignalPicker {
  import opened RailTypes
  import Toolbar

  // Widget numbers of the picker (`BuildSignalWidgets`): a row of six
  // semaphore signals, then a row of six electric signals, then the convert
  // button and the density label and buttons.
  const SEMAPHORE_NORM: nat := 1
  /** The number of signal types, `SIGTYPE_LAST + 1`. */
  const SIGTYPE_COUNT: nat := 6
  const ELECTRIC_NORM: nat := SEMAPHORE_NORM + SIGTYPE_COUNT
  const CONVERT: nat := ELECTRIC_NORM + SIGTYPE_COUNT
  const DENSITY_LABEL: nat := CONVERT + 1
  const DENSITY_DECREASE: nat := CONVERT + 2
  const DENSITY_INCREASE: nat := CONVERT + 3

  /** The bounds of `drag_signals_density`. */
  const MIN_DENSITY: nat := 1
  const MAX_DENSITY: nat := 20

  /** One of the twelve signal buttons. */
  predicate IsSignalWidget(w: nat)
  {
    SEMAPHORE_NORM <= w < ELECTRIC_NORM + SIGTYPE_COUNT
  }

  /** The button of a signal: its row by variant, its column by type. */
  function SignalWidget(v: SignalVariant, t: nat): (w: nat)
    requires t < SIGTYPE_COUNT
    ensures IsSignalWidget(w)
    ensures w >= ELECTRIC_NORM <==> v.Electric?
  {
    (if v == Electric then ELECTRIC_NORM else SEMAPHORE_NORM) + t
  }

  /** The signal type of a button: its offset modulo `SIGTYPE_LAST + 1`. */
  function WidgetType(w: nat): (t: nat)
    requires IsSignalWidget(w)
    ensures t < SIGTYPE_COUNT
  {
    (w - SEMAPHORE_NORM) % SIGTYPE_COUNT
  }

  /** The variant of a button: electric from `ELECTRIC_NORM` on. */
  function WidgetVariant(w: nat): SignalVariant
  {
    if w >= ELECTRIC_NORM then Electric else Semaphore
  }

  /** Decoding the button of a signal gives back that signal. */
  lemma WidgetOfSignalDecodes(v: SignalVariant, t: nat)
    requires t < SIGTYPE_COUNT
    ensures WidgetType(SignalWidget(v, t)) == t
    ensures WidgetVariant(SignalWidget(v, t)) == v
  {
  }

  /** Every signal button is the button of the signal it decodes to. */
  lemma DecodedSignalWidget(w: nat)
    requires IsSignalWidget(w)
    ensures SignalWidget(WidgetVariant(w), WidgetType(w)) == w
  {
  }

  /** The density after a click on `widget`, as `OnClick` changes it. */
  function DensityAfter(d: nat, widget: nat): (r: nat)
    ensures MIN_DENSITY <= d <= MAX_DENSITY ==> MIN_DENSITY <= r <= MAX_DENSITY
    ensures widget == DENSITY_DECREASE && d == MIN_DENSITY ==> r == d
    ensures widget == DENSITY_INCREASE && d == MAX_DENSITY ==> r == d
    ensures widget == DENSITY_DECREASE && d > MIN_DENSITY ==> r + 1 == d
    ensures widget == DENSITY_INCREASE && d < MAX_DENSITY ==> r == d + 1
    ensures widget != DENSITY_DECREASE && widget != DENSITY_INCREASE ==> r == d
  {
    if widget == DENSITY_DECREASE && d > MIN_DENSITY then d - 1
    else if widget == DENSITY_INCREASE && d < MAX_DENSITY then d + 1
    else d
  }

  /** The signal picker window with the global selection flags and the density setting it edits. */
  class SignalPickerWindow {
    /** `_cur_signal_type`, as a column index 0..5. */
    var sigType: nat
    /** `_cur_signal_variant`. */
    var variant: SignalVariant
    /** `_convert_signal_button`. */
    var convert: bool
    /** `_settings_client.gui.drag_signals_density`. */
    var density: nat
    /** The lowered buttons. */
    var lowered: set<nat>
    /** The disabled buttons. */
    var disabled: set<nat>

    /**
     * The window as `OnInvalidateData` leaves it: the density within
     * 1..20, exactly the selected signal's button lowered among the signal
     * buttons, the convert button lowered iff convert mode is on, and each
     * density button disabled exactly at its bound.
     */
    ghost predicate Valid()
      reads this
    {
      && sigType < SIGTYPE_COUNT
      && MIN_DENSITY <= density <= MAX_DENSITY
      && (forall w :: IsSignalWidget(w) ==> (w in lowered <==> w == SignalWidget(variant, sigType)))
      && (CONVERT in lowered <==> convert)
      && (DENSITY_DECREASE in disabled <==> density == MIN_DENSITY)
      && (DENSITY_INCREASE in disabled <==> density == MAX_DENSITY)
    }

    constructor(sigType0: nat, variant0: SignalVariant, convert0: bool, density0: nat)
      requires sigType0 < SIGTYPE_COUNT
      requires MIN_DENSITY <= density0 <= MAX_DENSITY
      ensures Valid()
      ensures sigType == sigType0 && variant == variant0 && convert == convert0 && density == density0
    {
      sigType := sigType0;
      variant := variant0;
      convert := convert0;
      density := density0;
      lowered := {};
      disabled := {};
      new;
      OnInvalidateData();
    }

    /** `OnInvalidateData`: bring the buttons in line with the selection, convert flag and density. */
    method OnInvalidateData()
      requires sigType < SIGTYPE_COUNT
      requires MIN_DENSITY <= density <= MAX_DENSITY
      requires forall w :: IsSignalWidget(w) && w in lowered ==> w == SignalWidget(variant, sigType)
      modifies this
      ensures Valid()
      ensures sigType == old(sigType) && variant == old(variant) && convert == old(convert) && density == old(density)
    {
      lowered := lowered + {SignalWidget(variant, sigType)};
      if convert {
        lowered := lowered + {CONVERT};
      } else {
        lowered := lowered - {CONVERT};
      }
      if density == MIN_DENSITY {
        disabled := disabled + {DENSITY_DECREASE};
      } else {
        disabled := disabled - {DENSITY_DECREASE};
      }
      if density == MAX_DENSITY {
        disabled := disabled + {DENSITY_INCREASE};
      } else {
        disabled := disabled - {DENSITY_INCREASE};
      }
    }

    /**
     * `OnClick`.  A signal button selects its signal and, when remove mode
     * is on, toggles the toolbar's remove button.  That switches remove
     * mode off when the button was lowered, but when remove mode was
     * inverted by the fn modifier without lowering the button, the toggle
     * lowers it and remove mode stays on; the convert button toggles
     * convert mode; the density buttons step the density within 1..20.
     * The buttons are brought in line afterwards.
     */
    method OnClick(widget: nat, toolbar: Toolbar.RailToolbar)
      requires Valid()
      modifies this, toolbar
      ensures Valid()
      ensures IsSignalWidget(widget) ==> sigType == WidgetType(widget) && variant == WidgetVariant(widget)
      ensures !IsSignalWidget(widget) ==> sigType == old(sigType) && variant == old(variant)
      ensures convert == (if widget == CONVERT then !old(convert) else old(convert))
      ensures density == DensityAfter(old(density), widget)
      ensures (IsSignalWidget(widget) && old(toolbar.removeClicked) && old(Toolbar.Remove in toolbar.lowered)) ==>
                !toolbar.removeClicked && Toolbar.Remove !in toolbar.lowered
      ensures (IsSignalWidget(widget) && old(toolbar.removeClicked) && Toolbar.Remove !in old(toolbar.lowered)) ==>
                toolbar.removeClicked && Toolbar.Remove in toolbar.lowered
      ensures !(IsSignalWidget(widget) && old(toolbar.removeClicked)) ==>
                toolbar.removeClicked == old(toolbar.removeClicked) && toolbar.lowered == old(toolbar.lowered)
      ensures toolbar.lowered - {Toolbar.Remove} == old(toolbar.lowered) - {Toolbar.Remove}
      ensures toolbar.removeDisabled == old(toolbar.removeDisabled) && toolbar.snapToRail == old(toolbar.snapToRail)
      ensures toolbar.lastUserAction == old(toolbar.lastUserAction)
    {
      if IsSignalWidget(widget) {
        lowered := lowered - {SignalWidget(variant, sigType)};
        sigType := WidgetType(widget);
        variant := WidgetVariant(widget);
        if toolbar.removeClicked {
          toolbar.ToggleRemove();
        }
      } else if widget == CONVERT {
        convert := !convert;
      } else if widget == DENSITY_DECREASE {
        if density > MIN_DENSITY {
          density := density - 1;
        }
      } else if widget == DENSITY_INCREASE {
        if density < MAX_DENSITY {
          density := density + 1;
        }
      }
      OnInvalidateData();
    }
  }

  /** Stepping the density down then up (or up then down) away from the bounds returns to it. */
  lemma DensityStepsInverse(d: nat)
    requires MIN_DENSITY < d < MAX_DENSITY
    ensures DensityAfter(DensityAfter(d, DENSITY_DECREASE), DENSITY_INCREASE) == d
    ensures DensityAfter(DensityAfter(d, DENSITY_INCREASE), DENSITY_DECREASE) == d
  {
  }

}
