/**
 * The gameplay components whose fields the core reads and writes.  ButtonStats.cs is not
 * part of this model; the class is known here by its one field, `buttonValue`.  Of
 * `Button` (Button.cs) only `activeState` matters; of `DrawerPullout`
 * (Puzzle1.1/DrawerPullout.cs, a `Button`) the pull-out fields, whose frame-by-frame
 * integration is not modelled.
 */
module Gameplay {

  class ButtonStats {
    var buttonValue: int

    constructor (buttonValue: int)
      ensures this.buttonValue == buttonValue
    {
      this.buttonValue := buttonValue;
    }
  }

  class Button {
    var activeState: bool

    constructor (activeState: bool)
      ensures this.activeState == activeState
    {
      this.activeState := activeState;
    }
  }

  class DrawerPullout {
    var pulloutAmount: real
    var pullingOut: bool
    var targetPull: real
    var targetRange: real

    constructor (pulloutAmount: real, pullingOut: bool, targetPull: real, targetRange: real)
      ensures this.pulloutAmount == pulloutAmount && this.pullingOut == pullingOut
      ensures this.targetPull == targetPull && this.targetRange == targetRange
    {
      this.pulloutAmount, this.pullingOut := pulloutAmount, pullingOut;
      this.targetPull, this.targetRange := targetPull, targetRange;
    }
  }
}
