/**
 * The drawer adapter (DrawerPulloutSaveAdapter.cs): saves a drawer's pull-out fields and
 * its world position, and writes them back verbatim, without clamping or validation.
 */
module DrawerPulloutSaveAdapter {
  import opened Wrappers
  import opened Engine
  import opened Gameplay

  /** The adapter's nested `State` record. */
  datatype State = State(pulloutAmount: real, pullingOut: bool, targetPull: real, targetRange: real, position: Vector3)

  class DrawerPulloutSaveAdapter {
    /** `GetComponent<DrawerPullout>()`; `null` when there is none. */
    const drawer: DrawerPullout?
    const transform: Transform

    constructor (drawer: DrawerPullout?, transform: Transform)
      ensures this.drawer == drawer && this.transform == transform
    {
      this.drawer, this.transform := drawer, transform;
    }

    method CaptureState() returns (r: Option<State>)
      ensures r.None? <==> drawer == null
      ensures r.Some? ==> r.value == State(drawer.pulloutAmount, drawer.pullingOut, drawer.targetPull,
                                            drawer.targetRange, transform.position)
    {
      if drawer == null {
        return None;
      }
      r := Some(State(drawer.pulloutAmount, drawer.pullingOut, drawer.targetPull, drawer.targetRange,
                      transform.position));
    }

    /** All five fields are written back as saved; without a drawer nothing happens. */
    method RestoreState(s: State)
      modifies drawer, transform
      ensures drawer == null ==> unchanged(transform)
      ensures drawer != null ==>
        && drawer.pulloutAmount == s.pulloutAmount && drawer.pullingOut == s.pullingOut
        && drawer.targetPull == s.targetPull && drawer.targetRange == s.targetRange
        && transform.Values() == old(transform.Values()).(position := s.position)
    {
      if drawer == null {
        return;
      }
      drawer.pulloutAmount := s.pulloutAmount;
      drawer.pullingOut := s.pullingOut;
      drawer.targetPull := s.targetPull;
      drawer.targetRange := s.targetRange;
      transform.position := s.position;
    }
  }

  /** A save followed by a load leaves the drawer and its transform as they were. */
  method CaptureThenRestore(a: DrawerPulloutSaveAdapter)
    requires a.drawer != null
    modifies a.drawer, a.transform
    ensures a.drawer.pulloutAmount == old(a.drawer.pulloutAmount) && a.drawer.pullingOut == old(a.drawer.pullingOut)
    ensures a.drawer.targetPull == old(a.drawer.targetPull) && a.drawer.targetRange == old(a.drawer.targetRange)
    ensures a.transform.Values() == old(a.transform.Values())
  {
    var r := a.CaptureState();
    a.RestoreState(r.value);
  }
}
