/**
 * The door of Puzzle3.3/DoorController.cs, the second copy of the door class.  It has the
 * same three door types and the same counting loops, but no timer: when the condition holds
 * the door destroys its own object, kept here as the flag `destroyed`.  Its item door is
 * stricter than the first copy's: the inventory must hold exactly the required items, in
 * the required order.
 */
module DoorControllerPuzzle33 {
  import Collections
  import Engine
  import Gameplay
  import First = DoorController

  datatype DoorType = CodeDoor | ItemDoor | PuzzleDoor

  /**
   * The condition under which `Update` destroys the door.  It agrees with the counting
   * checks of the class: code and item doors count matching positions of equally long
   * lists, and a puzzle door counts active elements of a non-empty puzzle.
   */
  function DestroyCondition(doorType: DoorType, code: seq<int>, item: seq<Engine.GameObject>, active: seq<bool>,
                            numbersCollected: seq<int>, inventory: seq<Engine.GameObject>): (r: bool)
    ensures doorType == CodeDoor ==>
      (r <==> |numbersCollected| == |code| && Collections.MatchCount(numbersCollected, code) == |code|)
    ensures doorType == ItemDoor ==>
      (r <==> |inventory| == |item| && Collections.MatchCount(inventory, item) == |item|)
    ensures doorType == PuzzleDoor ==>
      (r <==> |active| > 0 && Collections.Count(active, First.IsActive) == |active|)
  {
    match doorType
      case CodeDoor =>
        if |numbersCollected| == |code| then Collections.MatchCountFull(numbersCollected, code); numbersCollected == code
        else false
      case ItemDoor =>
        if |inventory| == |item| then Collections.MatchCountFull(inventory, item); inventory == item
        else false
      case PuzzleDoor =>
        Collections.CountAll(active, First.IsActive);
        |active| > 0 && forall i :: 0 <= i < |active| ==> active[i]
  }

  /** The same door type in the first copy of the class. */
  function AsFirstCopy(t: DoorType): First.DoorType
  {
    match t
      case CodeDoor => First.CodeDoor
      case ItemDoor => First.ItemDoor
      case PuzzleDoor => First.PuzzleDoor
  }

  /**
   * This copy is at least as strict as the first: whatever destroys this door would also
   * start the first copy's unlock timer.  Code and puzzle doors agree exactly.
   */
  lemma StricterThanFirstCopy(t: DoorType, code: seq<int>, item: seq<Engine.GameObject>, active: seq<bool>,
                              numbersCollected: seq<int>, inventory: seq<Engine.GameObject>)
    ensures DestroyCondition(t, code, item, active, numbersCollected, inventory) ==>
      First.UnlockAttempted(AsFirstCopy(t), code, item, active, numbersCollected, inventory)
    ensures t != ItemDoor ==>
      (DestroyCondition(t, code, item, active, numbersCollected, inventory) <==>
       First.UnlockAttempted(AsFirstCopy(t), code, item, active, numbersCollected, inventory))
  {
    if t == ItemDoor && inventory == item {
      assert forall i :: 0 <= i < |item| ==> item[i] == inventory[i];
    }
  }

  /**
   * An extra item blocks the item door, and so does the right items in another order,
   * while the first copy opens for both.
   */
  lemma ItemDoorIsOrderSensitive(a: Engine.GameObject, b: Engine.GameObject, extra: Engine.GameObject)
    requires a != b
    ensures !DestroyCondition(ItemDoor, [], [a, b], [], [], [a, b, extra])
    ensures !DestroyCondition(ItemDoor, [], [a, b], [], [], [b, a])
    ensures First.UnlockAttempted(First.ItemDoor, [], [a, b], [], [], [a, b, extra])
    ensures First.UnlockAttempted(First.ItemDoor, [], [a, b], [], [], [b, a])
  {
    assert [a, b, extra][0] == a && [a, b, extra][1] == b;
    assert [b, a][0] == b && [b, a][1] == a;
    assert [b, a] != [a, b] by {
      assert [b, a][0] != [a, b][0];
    }
  }

  /** A puzzle door with no elements is never destroyed. */
  lemma EmptyPuzzleNeverDestroyed(code: seq<int>, item: seq<Engine.GameObject>, numbersCollected: seq<int>,
                                  inventory: seq<Engine.GameObject>)
    ensures !DestroyCondition(PuzzleDoor, code, item, [], numbersCollected, inventory)
  {
  }

  class DoorController {
    var doorType: DoorType
    var code: seq<int>
    var item: seq<Engine.GameObject>
    /** The `Button` component of each puzzle element. */
    var puzzle: seq<Gameplay.Button>
    /** Whether `Destroy(gameObject)` has been called. */
    var destroyed: bool

    constructor (doorType: DoorType, code: seq<int>, item: seq<Engine.GameObject>, puzzle: seq<Gameplay.Button>)
      ensures this.doorType == doorType && this.code == code && this.item == item && this.puzzle == puzzle
      ensures !destroyed
    {
      this.doorType, this.code, this.item, this.puzzle := doorType, code, item, puzzle;
      destroyed := false;
    }

    /** The `activeState` of each puzzle element, in order. */
    function ActiveStates(): (states: seq<bool>)
      reads this, puzzle
      ensures |states| == |puzzle|
      ensures forall i :: 0 <= i < |puzzle| ==> states[i] == puzzle[i].activeState
    {
      seq(|puzzle|, i reads this, puzzle requires 0 <= i < |puzzle| => puzzle[i].activeState)
    }

    /** `Update`: the door is destroyed when its condition holds; a destroyed door stays so. */
    method Update(numbersCollected: seq<int>, inventory: seq<Engine.GameObject>)
      modifies this
      ensures destroyed == (old(destroyed) ||
        DestroyCondition(old(doorType), old(code), old(item), old(ActiveStates()), numbersCollected, inventory))
      ensures doorType == old(doorType) && code == old(code) && item == old(item) && puzzle == old(puzzle)
    {
      match doorType {
        case CodeDoor =>
          var unlock := CodeMatches(numbersCollected);
          if unlock {
            destroyed := true;
          }
        case ItemDoor =>
          var unlock := ItemsMatch(inventory);
          if unlock {
            destroyed := true;
          }
        case PuzzleDoor =>
          PuzzlePass();
      }
    }

    /** The code door's check: as many numbers as the code, each equal to the code's. */
    method CodeMatches(numbersCollected: seq<int>) returns (unlock: bool)
      ensures unlock <==> numbersCollected == code
    {
      unlock := false;
      if |numbersCollected| == |code| {
        var trueCount := 0;
        for i := 0 to |code|
          invariant trueCount == Collections.MatchCount(numbersCollected[..i], code[..i])
        {
          Collections.MatchCountSnoc(numbersCollected[..i], code[..i], numbersCollected[i], code[i]);
          assert numbersCollected[..i + 1] == numbersCollected[..i] + [numbersCollected[i]];
          assert code[..i + 1] == code[..i] + [code[i]];
          if numbersCollected[i] == code[i] {
            trueCount := trueCount + 1;
          }
        }
        assert numbersCollected[..|code|] == numbersCollected && code[..|code|] == code;
        Collections.MatchCountFull(numbersCollected, code);
        unlock := trueCount == |code|;
      }
    }

    /** The item door's check: as many items as required, each at the required position. */
    method ItemsMatch(inventory: seq<Engine.GameObject>) returns (unlock: bool)
      ensures unlock <==> inventory == item
    {
      unlock := false;
      if |inventory| == |item| {
        var trueCount := 0;
        for i := 0 to |item|
          invariant trueCount == Collections.MatchCount(inventory[..i], item[..i])
        {
          Collections.MatchCountSnoc(inventory[..i], item[..i], inventory[i], item[i]);
          assert inventory[..i + 1] == inventory[..i] + [inventory[i]];
          assert item[..i + 1] == item[..i] + [item[i]];
          if inventory[i] == item[i] {
            trueCount := trueCount + 1;
          }
        }
        assert inventory[..|item|] == inventory && item[..|item|] == item;
        Collections.MatchCountFull(inventory, item);
        unlock := trueCount == |item|;
      }
    }

    /**
     * The puzzle door's loop: after each element the door is destroyed when the count of
     * active elements so far equals the number of elements, which happens only after the
     * last one and only when all are active.
     */
    method PuzzlePass()
      modifies this
      ensures destroyed == (old(destroyed) || DestroyCondition(PuzzleDoor, [], [], old(ActiveStates()), [], []))
      ensures doorType == old(doorType) && code == old(code) && item == old(item) && puzzle == old(puzzle)
    {
      ghost var states := ActiveStates();
      ghost var all := Collections.Count(states, First.IsActive) == |states|;
      var trueCount := 0;
      for i := 0 to |puzzle|
        invariant puzzle == old(puzzle) && doorType == old(doorType) && code == old(code) && item == old(item)
        invariant trueCount == Collections.Count(states[..i], First.IsActive)
        invariant destroyed == (old(destroyed) || (i == |puzzle| && i > 0 && all))
      {
        Collections.CountSnoc(states[..i], states[i], First.IsActive);
        assert states[..i + 1] == states[..i] + [states[i]];
        if puzzle[i].activeState {
          trueCount := trueCount + 1;
        }
        if trueCount == |puzzle| {
          assert states[..i + 1] == states by {
            assert i + 1 == |puzzle|;
          }
          destroyed := true;
        } else if i + 1 == |puzzle| {
          assert states[..i + 1] == states;
        }
      }
      Collections.CountAll(states, First.IsActive);
      assert DestroyCondition(PuzzleDoor, [], [], states, [], []) == (|states| > 0 && all);
    }
  }
}
