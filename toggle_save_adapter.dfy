/** The toggle adapter (ToggleSaveAdapter.cs): saves and restores one UGUI toggle's `isOn`. */
module ToggleSaveAdapter {
  import opened Wrappers
  import opened Engine

  /** The adapter's nested `State` record. */
  datatype State = State(isOn: bool)

  class ToggleSaveAdapter {
    /** The inspector reference; `null` when none is assigned (or it was destroyed). */
    var toggle: Toggle?

    constructor (toggle: Toggle?)
      ensures this.toggle == toggle
    {
      this.toggle := toggle;
    }

    /** Nothing to save without a toggle; otherwise its current value. */
    method CaptureState() returns (r: Option<State>)
      ensures r.None? <==> toggle == null
      ensures r.Some? ==> r.value.isOn == toggle.isOn
    {
      if toggle == null {
        return None;
      }
      r := Some(State(toggle.isOn));
    }

    /**
     * Sets `isOn` to the saved value and then invokes `onValueChanged` once more with it,
     * so listeners hear the value even when it did not change.  The setter itself
     * notifies as well when the value does change.
     */
    method RestoreState(s: State)
      modifies toggle
      ensures toggle != null ==> toggle.isOn == s.isOn
      ensures toggle != null ==>
        toggle.notified == old(toggle.notified) + (if old(toggle.isOn) != s.isOn then [s.isOn] else []) + [s.isOn]
    {
      if toggle == null {
        return;
      }
      toggle.SetIsOn(s.isOn);
      toggle.InvokeValueChanged(toggle.isOn);
    }
  }

  /**
   * A save followed by a load on an unchanged toggle: the value stays, and listeners
   * are told the value exactly once.
   */
  method CaptureThenRestore(a: ToggleSaveAdapter)
    requires a.toggle != null
    modifies a.toggle
    ensures a.toggle.isOn == old(a.toggle.isOn)
    ensures a.toggle.notified == old(a.toggle.notified) + [a.toggle.isOn]
  {
    var r := a.CaptureState();
    a.RestoreState(r.value);
  }
}
