/**
 * The wrong-digit reset (ResetOnWrongNumber.cs).  Each frame it walks the player's entered
 * numbers against the door's code; at the first wrong one it empties the list and puts the
 * player back at the start position.  Emptying the list ends the walk, so a frame resets at
 * most once.  An entered list that runs past the end of the code, with every number up to
 * there right, makes the walk index past the code and throw.
 */
module ResetOnWrongNumber {
  import opened Wrappers
  import Engine
  import DoorController
  import InteractorMain

  /**
   * The index at which the walk stops: the first entered number that has no code number at
   * its index or differs from it; None when every entered number is right.
   */
  function FirstMismatch(numbers: seq<int>, code: seq<int>): (r: Option<nat>)
    ensures r.None? ==> |numbers| <= |code| && forall k :: 0 <= k < |numbers| ==> numbers[k] == code[k]
    ensures r.Some? ==>
      (r.value < |numbers| && r.value <= |code| && (r.value == |code| || numbers[r.value] != code[r.value]) &&
       forall k :: 0 <= k < r.value ==> numbers[k] == code[k])
  {
    if numbers == [] then None
    else if code == [] || numbers[0] != code[0] then Some(0)
    else
      var rest := FirstMismatch(numbers[1..], code[1..]);
      if rest.None? then None else Some(rest.value + 1)
  }

  /** The walk finds nothing wrong exactly when the entered numbers are a prefix of the code. */
  lemma NoMismatchIffPrefix(numbers: seq<int>, code: seq<int>)
    ensures FirstMismatch(numbers, code).None? <==> |numbers| <= |code| && numbers == code[..|numbers|]
  {
  }

  /**
   * The walk throws exactly when the whole code has been entered correctly and more numbers
   * follow it; it resets exactly when some number within both lists is wrong.
   */
  lemma OutcomeOfWalk(numbers: seq<int>, code: seq<int>)
    ensures (FirstMismatch(numbers, code).Some? && FirstMismatch(numbers, code).value >= |code|) <==>
      (|numbers| > |code| && numbers[..|code|] == code)
    ensures (FirstMismatch(numbers, code).Some? && FirstMismatch(numbers, code).value < |code|) <==>
      exists k :: 0 <= k < |numbers| && k < |code| && numbers[k] != code[k]
  {
    var r := FirstMismatch(numbers, code);
    if |numbers| > |code| && numbers[..|code|] == code {
      assert forall k :: 0 <= k < |code| ==> numbers[k] == code[k];
    }
    if r.Some? && r.value >= |code| {
      assert numbers[..|code|] == code;
    }
  }

  class ResetOnWrongNumber {
    const interactor: InteractorMain.InteractorMain
    const doorController: DoorController.DoorController
    /** This object's transform and the start position's. */
    const transform: Engine.Transform
    const startPosition: Engine.Transform

    constructor (interactor: InteractorMain.InteractorMain, doorController: DoorController.DoorController,
                 transform: Engine.Transform, startPosition: Engine.Transform)
      ensures this.interactor == interactor && this.doorController == doorController
      ensures this.transform == transform && this.startPosition == startPosition
    {
      this.interactor, this.doorController := interactor, doorController;
      this.transform, this.startPosition := transform, startPosition;
    }

    /** `ResetPuzzle`: the entered numbers are cleared and the player goes back to the start. */
    method ResetPuzzle()
      modifies interactor`numbersCollected, transform`position
      ensures interactor.numbersCollected == [] && transform.position == old(startPosition.position)
    {
      interactor.numbersCollected := [];
      transform.position := startPosition.position;
    }

    /** `Update`: the walk, resetting at the first wrong number. */
    method Update() returns (r: Outcome<()>)
      modifies interactor`numbersCollected, transform`position
      ensures var m := FirstMismatch(old(interactor.numbersCollected), doorController.code);
        (r.Threw? <==> m.Some? && m.value >= |doorController.code|) &&
        (m.Some? && m.value < |doorController.code| ==>
          interactor.numbersCollected == [] && transform.position == old(startPosition.position)) &&
        (m.None? || m.value >= |doorController.code| ==>
          interactor.numbersCollected == old(interactor.numbersCollected) && transform.position == old(transform.position))
    {
      ghost var numbers := interactor.numbersCollected;
      ghost var m := FirstMismatch(numbers, doorController.code);
      ghost var reset := false;
      var i := 0;
      while i < |interactor.numbersCollected|
        invariant !reset ==>
          (interactor.numbersCollected == numbers && transform.position == old(transform.position) &&
           i <= |numbers| && i <= |doorController.code| && forall k :: 0 <= k < i ==> numbers[k] == doorController.code[k])
        invariant reset ==>
          (interactor.numbersCollected == [] && transform.position == old(startPosition.position) &&
           m.Some? && m.value < |doorController.code|)
        decreases |interactor.numbersCollected| - i
      {
        if i >= |doorController.code| {
          return Threw;
        }
        if interactor.numbersCollected[i] != doorController.code[i] {
          ResetPuzzle();
          reset := true;
        }
        i := i + 1;
      }
      r := Returned(());
    }
  }
}
