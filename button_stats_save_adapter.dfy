/** The button-value adapter (ButtonStatsSaveAdapter.cs): saves a keypad button's number. */
module ButtonStatsSaveAdapter {
  import opened Wrappers
  import opened Gameplay

  /** The adapter's nested `State` record. */
  datatype State = State(buttonValue: int)

  class ButtonStatsSaveAdapter {
    /** `GetComponent<ButtonStats>()` on the adapter's object; `null` when there is none. */
    const stats: ButtonStats?

    constructor (stats: ButtonStats?)
      ensures this.stats == stats
    {
      this.stats := stats;
    }

    method CaptureState() returns (r: Option<State>)
      ensures r.None? <==> stats == null
      ensures r.Some? ==> r.value.buttonValue == stats.buttonValue
    {
      if stats == null {
        return None;
      }
      r := Some(State(stats.buttonValue));
    }

    /** Writes the saved value back; without a `ButtonStats` nothing happens. */
    method RestoreState(s: State)
      modifies stats
      ensures stats != null ==> stats.buttonValue == s.buttonValue
    {
      if stats == null {
        return;
      }
      stats.buttonValue := s.buttonValue;
    }
  }

  /** A save followed by a load leaves `buttonValue` as it was. */
  method CaptureThenRestore(a: ButtonStatsSaveAdapter)
    requires a.stats != null
    modifies a.stats
    ensures a.stats.buttonValue == old(a.stats.buttonValue)
  {
    var r := a.CaptureState();
    a.RestoreState(r.value);
  }
}
