/**
 * The door of DoorController.cs.  Each frame `Update` checks the door's condition: a code
 * door compares the player's collected numbers with its code, an item door looks for its
 * items in the player's inventory, a puzzle door counts its active puzzle elements.  When
 * the condition holds it calls `UnlockDoor`, which runs the unlock timer down by the frame
 * time and, once the timer is below zero and the door needs no interaction (or has had
 * one), moves the door up.
 *
 * The player's `InteractorMain` lists are parameters of `Update`, and `Time.deltaTime` is
 * a parameter `deltaTime`.  The translation `OpenDoor` asks for is kept as the distance
 * `lift`, 5 * deltaTime per call; its direction is not modelled.
 */
module DoorController {
  import Collections
  import Engine
  import Gameplay

  datatype DoorType = CodeDoor | ItemDoor | PuzzleDoor

  /** `activeState == true`, as a predicate on puzzle element states. */
  function IsActive(b: bool): bool
  {
    b
  }

  /**
   * The door's condition, what `Update` checks before calling `UnlockDoor`.  It agrees with
   * the counting checks the class performs: a code door counts matching positions of
   * equally long lists, an item door counts required items found in a large enough
   * inventory, and a puzzle door counts active elements of a non-empty puzzle.
   */
  function UnlockAttempted(doorType: DoorType, code: seq<int>, item: seq<Engine.GameObject>, active: seq<bool>,
                           numbersCollected: seq<int>, inventory: seq<Engine.GameObject>): (r: bool)
    ensures doorType == CodeDoor ==>
      (r <==> |numbersCollected| == |code| && Collections.MatchCount(numbersCollected, code) == |code|)
    ensures doorType == ItemDoor ==>
      (r <==> |inventory| >= |item| && Collections.Count(item, InInventory(inventory)) >= |item|)
    ensures doorType == PuzzleDoor ==>
      (r <==> |active| > 0 && Collections.Count(active, IsActive) == |active|)
  {
    match doorType
      case CodeDoor =>
        if |numbersCollected| == |code| then Collections.MatchCountFull(numbersCollected, code); numbersCollected == code
        else false
      case ItemDoor =>
        Collections.CountAll(item, InInventory(inventory));
        |inventory| >= |item| && forall i :: 0 <= i < |item| ==> item[i] in inventory
      case PuzzleDoor =>
        Collections.CountAll(active, IsActive);
        |active| > 0 && forall i :: 0 <= i < |active| ==> active[i]
  }

  /** A code door with an empty code opens as soon as no numbers are collected. */
  lemma EmptyCodeOpensOnNoNumbers(item: seq<Engine.GameObject>, active: seq<bool>, inventory: seq<Engine.GameObject>)
    ensures UnlockAttempted(CodeDoor, [], item, active, [], inventory)
    ensures forall n: seq<int> :: n != [] ==> !UnlockAttempted(CodeDoor, [], item, active, n, inventory)
  {
  }

  /** A puzzle door with no elements never unlocks: its loop never runs. */
  lemma EmptyPuzzleNeverOpens(code: seq<int>, item: seq<Engine.GameObject>, numbersCollected: seq<int>,
                              inventory: seq<Engine.GameObject>)
    ensures !UnlockAttempted(PuzzleDoor, code, item, [], numbersCollected, inventory)
  {
  }

  /**
   * Picking more things up never locks an item door again: an inventory holding everything
   * the old one held, and at least as many entries, still satisfies it.
   */
  lemma ItemDoorStaysOpen(item: seq<Engine.GameObject>, inventory: seq<Engine.GameObject>,
                          inventory': seq<Engine.GameObject>, code: seq<int>, active: seq<bool>, numbersCollected: seq<int>)
    requires UnlockAttempted(ItemDoor, code, item, active, numbersCollected, inventory)
    requires forall x :: x in inventory ==> x in inventory'
    requires |inventory'| >= |inventory|
    ensures UnlockAttempted(ItemDoor, code, item, active, numbersCollected, inventory')
  {
  }

  /**
   * The item door counts list entries, not distinct items: a door listing the same key twice
   * stays shut while the key is the only thing held, and opens once anything else is held.
   */
  lemma ItemDoorCountsEntries(key: Engine.GameObject, other: Engine.GameObject)
    ensures !UnlockAttempted(ItemDoor, [], [key, key], [], [], [key])
    ensures UnlockAttempted(ItemDoor, [], [key, key], [], [], [key, other])
  {
  }

  class DoorController {
    var doorType: DoorType
    var code: seq<int>
    var item: seq<Engine.GameObject>
    /** The `Button` component of each puzzle element. */
    var puzzle: seq<Gameplay.Button>
    var unlockTimer: real
    var interactToOpen: bool
    var interacted: bool
    var lift: real

    /** A door with the inspector defaults: a 2.5 second timer, no interaction needed. */
    constructor (doorType: DoorType, code: seq<int>, item: seq<Engine.GameObject>, puzzle: seq<Gameplay.Button>)
      ensures this.doorType == doorType && this.code == code && this.item == item && this.puzzle == puzzle
      ensures unlockTimer == 2.5 && !interactToOpen && !interacted && lift == 0.0
    {
      this.doorType, this.code, this.item, this.puzzle := doorType, code, item, puzzle;
      unlockTimer, interactToOpen, interacted, lift := 2.5, false, false, 0.0;
    }

    /** The `activeState` of each puzzle element, in order. */
    function ActiveStates(): (states: seq<bool>)
      reads this, puzzle
      ensures |states| == |puzzle|
      ensures forall i :: 0 <= i < |puzzle| ==> states[i] == puzzle[i].activeState
    {
      seq(|puzzle|, i reads this, puzzle requires 0 <= i < |puzzle| => puzzle[i].activeState)
    }

    /** Whether the interaction gate lets the door open. */
    predicate GateOpen()
      reads this
    {
      (interactToOpen && interacted) || !interactToOpen
    }

    /**
     * `UnlockDoor`: the timer runs down by the frame time; the door moves up when the
     * timer is then below zero and the gate is open.
     */
    method UnlockDoor(deltaTime: real)
      modifies this
      ensures unlockTimer == old(unlockTimer) - deltaTime
      ensures lift == old(lift) + (if old(GateOpen()) && unlockTimer < 0.0 then 5.0 * deltaTime else 0.0)
      ensures doorType == old(doorType) && code == old(code) && item == old(item) && puzzle == old(puzzle)
      ensures interactToOpen == old(interactToOpen) && interacted == old(interacted)
    {
      unlockTimer := unlockTimer - deltaTime;
      if (interactToOpen && interacted) || !interactToOpen {
        if unlockTimer < 0.0 {
          lift := lift + 5.0 * deltaTime;
        }
      }
    }

    /**
     * `Update`: one `UnlockDoor` call exactly when the door's condition holds (the puzzle
     * door makes it from inside its loop over the elements, after the last one).
     */
    method Update(numbersCollected: seq<int>, inventory: seq<Engine.GameObject>, deltaTime: real)
      modifies this
      ensures var attempted := UnlockAttempted(old(doorType), old(code), old(item), old(ActiveStates()), numbersCollected, inventory);
        unlockTimer == old(unlockTimer) - (if attempted then deltaTime else 0.0) &&
        lift == old(lift) + (if attempted && old(GateOpen()) && old(unlockTimer) - deltaTime < 0.0 then 5.0 * deltaTime else 0.0)
      ensures doorType == old(doorType) && code == old(code) && item == old(item) && puzzle == old(puzzle)
      ensures interactToOpen == old(interactToOpen) && interacted == old(interacted)
    {
      match doorType {
        case CodeDoor =>
          var unlock := CodeMatches(numbersCollected);
          if unlock {
            UnlockDoor(deltaTime);
          }
        case ItemDoor =>
          var unlock := ItemsHeld(inventory);
          if unlock {
            UnlockDoor(deltaTime);
          }
        case PuzzleDoor =>
          PuzzlePass(deltaTime);
      }
    }

    /** The code door's check: as many numbers as the code, each equal to the code's. */
    method CodeMatches(numbersCollected: seq<int>) returns (unlock: bool)
      ensures unlock <==> numbersCollected == code
    {
      unlock := false;
      if |numbersCollected| == |code| {
        var trueCount := 0;
        for i := 0 to |code|
          invariant trueCount == Collections.MatchCount(numbersCollected[..i], code[..i])
        {
          Collections.MatchCountSnoc(numbersCollected[..i], code[..i], numbersCollected[i], code[i]);
          assert numbersCollected[..i + 1] == numbersCollected[..i] + [numbersCollected[i]];
          assert code[..i + 1] == code[..i] + [code[i]];
          if numbersCollected[i] == code[i] {
            trueCount := trueCount + 1;
          }
        }
        assert numbersCollected[..|code|] == numbersCollected && code[..|code|] == code;
        Collections.MatchCountFull(numbersCollected, code);
        unlock := trueCount == |code|;
      }
    }

    /** The item door's check: at least as many items held as required, and each required one held. */
    method ItemsHeld(inventory: seq<Engine.GameObject>) returns (unlock: bool)
      ensures unlock <==> |inventory| >= |item| && forall i :: 0 <= i < |item| ==> item[i] in inventory
    {
      unlock := false;
      if |inventory| >= |item| {
        var trueCount := 0;
        for i := 0 to |item|
          invariant trueCount == Collections.Count(item[..i], InInventory(inventory))
        {
          Collections.CountSnoc(item[..i], item[i], InInventory(inventory));
          assert item[..i + 1] == item[..i] + [item[i]];
          if item[i] in inventory {
            trueCount := trueCount + 1;
          }
        }
        assert item[..|item|] == item;
        Collections.CountAll(item, InInventory(inventory));
        unlock := trueCount >= |item|;
      }
    }

    /**
     * The puzzle door's loop: after each element, `UnlockDoor` runs when the count of active
     * elements so far equals the number of elements, which happens only after the last one
     * and only when all are active.
     */
    method PuzzlePass(deltaTime: real)
      modifies this
      ensures var attempted := UnlockAttempted(PuzzleDoor, [], [], old(ActiveStates()), [], []);
        unlockTimer == old(unlockTimer) - (if attempted then deltaTime else 0.0) &&
        lift == old(lift) + (if attempted && old(GateOpen()) && old(unlockTimer) - deltaTime < 0.0 then 5.0 * deltaTime else 0.0)
      ensures doorType == old(doorType) && code == old(code) && item == old(item) && puzzle == old(puzzle)
      ensures interactToOpen == old(interactToOpen) && interacted == old(interacted)
    {
      ghost var states := ActiveStates();
      ghost var all := Collections.Count(states, IsActive) == |states|;
      var trueCount := 0;
      for i := 0 to |puzzle|
        invariant puzzle == old(puzzle) && doorType == old(doorType) && code == old(code) && item == old(item)
        invariant interactToOpen == old(interactToOpen) && interacted == old(interacted)
        invariant trueCount == Collections.Count(states[..i], IsActive)
        invariant unlockTimer == old(unlockTimer) - (if i == |puzzle| && i > 0 && all then deltaTime else 0.0)
        invariant lift == old(lift) +
          (if i == |puzzle| && i > 0 && all && old(GateOpen()) && old(unlockTimer) - deltaTime < 0.0 then 5.0 * deltaTime else 0.0)
      {
        Collections.CountSnoc(states[..i], states[i], IsActive);
        assert states[..i + 1] == states[..i] + [states[i]];
        if puzzle[i].activeState {
          trueCount := trueCount + 1;
        }
        if trueCount == |puzzle| {
          assert states[..i + 1] == states by {
            assert i + 1 == |puzzle|;
          }
          UnlockDoor(deltaTime);
        } else if i + 1 == |puzzle| {
          assert states[..i + 1] == states;
        }
      }
      Collections.CountAll(states, IsActive);
    }
  }

  /** `inventory.Contains`, as a predicate on items. */
  function InInventory(inventory: seq<Engine.GameObject>): Engine.GameObject -> bool
  {
    x => x in inventory
  }
}
