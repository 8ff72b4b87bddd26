/**
 * The second copy of the player's interactor (Puzzle3.3/InteractorMain.cs).  It reads the
 * interact key's three edges separately: on key-down it tries the keypad, which looks only
 * at the first hit, and collects pickups; while the key is held every drawer hit pulls out
 * and the last one becomes `lastDrawer`; on key-up that drawer is let go.  A code list
 * longer than `codeCount` is emptied.
 *
 * The key-down, key-held and key-up flags and the ray's hits are parameters of `Update`; the
 * two ray casts of one frame share the same hits.  The camera is taken to be present.
 */
module InteractorMainPuzzle33 {
  import opened Wrappers
  import Engine
  import Gameplay
  import Raycast

  /** The keypad press of this copy: the first hit's value, when that hit is a keypad button. */
  function FirstHitPress(hits: seq<Raycast.Hit>): seq<int>
    requires hits != []
  {
    if Raycast.IsKeypadButton(hits[0]) then [hits[0].buttonValue.value] else []
  }

  /** The overflow rule of this copy: a list longer than `codeCount` is emptied. */
  function ClearOverflow(numbers: seq<int>, codeCount: int): seq<int>
  {
    if |numbers| > codeCount then [] else numbers
  }

  /**
   * After the overflow rule the list is within `codeCount` (and empty for a negative one),
   * and a list within it is kept.
   */
  lemma ClearOverflowBounds(numbers: seq<int>, codeCount: int)
    ensures |ClearOverflow(numbers, codeCount)| <= (if codeCount < 0 then 0 else codeCount)
    ensures |numbers| <= codeCount ==> ClearOverflow(numbers, codeCount) == numbers
    ensures |numbers| > codeCount ==> ClearOverflow(numbers, codeCount) == []
  {
  }

  /**
   * Unlike the first copy, this keypad does not look past the first hit: a button behind
   * another object enters nothing here, while the first copy enters its value.
   */
  lemma KeypadSeesOnlyFirstHit(wall: Engine.GameObject, button: Engine.GameObject, v: int)
    ensures FirstHitPress([Raycast.Hit(wall, "Untagged", None, null, null), Raycast.Hit(button, "Button", Some(v), null, null)]) == []
    ensures Raycast.KeypadPress([Raycast.Hit(wall, "Untagged", None, null, null), Raycast.Hit(button, "Button", Some(v), null, null)]) == [v]
  {
    var hits := [Raycast.Hit(wall, "Untagged", None, null, null), Raycast.Hit(button, "Button", Some(v), null, null)];
    assert !Raycast.IsKeypadButton(hits[0]) && hits[1..][0] == hits[1];
  }

  class InteractorMain {
    var inventory: seq<Engine.GameObject>
    var numbersCollected: seq<int>
    var codeCount: int
    /** The drawer last pulled, held by its `DrawerPullout`. */
    var lastDrawer: Gameplay.DrawerPullout?

    constructor (codeCount: int)
      ensures this.codeCount == codeCount && inventory == [] && numbersCollected == [] && lastDrawer == null
    {
      this.codeCount := codeCount;
      inventory, numbersCollected, lastDrawer := [], [], null;
    }

    /** `HandleKeypad`: reading the first hit of an empty hit array throws. */
    method HandleKeypad(hits: seq<Raycast.Hit>) returns (r: Outcome<()>)
      modifies this`numbersCollected
      ensures r.Threw? <==> hits == []
      ensures r.Threw? ==> numbersCollected == old(numbersCollected)
      ensures r.Returned? ==> numbersCollected == old(numbersCollected) + FirstHitPress(hits)
    {
      if hits == [] {
        return Threw;
      }
      if hits[0].tag == "Button" && hits[0].buttonValue.Some? {
        numbersCollected := numbersCollected + [hits[0].buttonValue.value];
      }
      r := Returned(());
    }

    /** `HandlePickup`: every "Pickup" hit joins the inventory, in hit order. */
    method HandlePickup(hits: seq<Raycast.Hit>)
      modifies this`inventory
      ensures inventory == old(inventory) + Raycast.Pickups(hits)
    {
      for i := 0 to |hits|
        invariant inventory == old(inventory) + Raycast.Pickups(hits[..i])
      {
        assert hits[..i + 1][..i] == hits[..i];
        if hits[i].tag == "Pickup" {
          inventory := inventory + [hits[i].obj];
        }
      }
      assert hits[..|hits|] == hits;
    }

    /**
     * `HandleDrawer`: every drawer hit pulls out and the last becomes `lastDrawer`; unlike
     * the first copy, a drawer passed over is not let go.
     */
    method HandleDrawer(hits: seq<Raycast.Hit>)
      requires Raycast.WellFormed(hits)
      modifies this`lastDrawer, Raycast.DrawerSet(hits)`pullingOut
      ensures lastDrawer == (if Raycast.LastDrawer(hits) == null then old(lastDrawer) else Raycast.LastDrawer(hits))
      ensures forall i :: 0 <= i < |hits| && Raycast.IsDrawer(hits[i]) ==> hits[i].drawer.pullingOut
      ensures forall d :: d in Raycast.DrawerSet(hits) && d != null ==> d.pullingOut
    {
      for i := 0 to |hits|
        invariant lastDrawer == (if Raycast.LastDrawer(hits[..i]) == null then old(lastDrawer) else Raycast.LastDrawer(hits[..i]))
        invariant forall k :: 0 <= k < i && Raycast.IsDrawer(hits[k]) ==> hits[k].drawer.pullingOut
      {
        assert hits[..i + 1][..i] == hits[..i];
        if hits[i].tag == "Drawer" {
          lastDrawer := hits[i].drawer;
          hits[i].drawer.pullingOut := true;
        }
      }
      assert hits[..|hits|] == hits;
    }

    /** Key-up: the last drawer pulled, if any, stops pulling out. */
    method LetGo()
      modifies {lastDrawer}`pullingOut
      ensures lastDrawer != null ==> !lastDrawer.pullingOut
    {
      if lastDrawer != null {
        lastDrawer.pullingOut := false;
      }
    }

    /** `Update`, for one frame. */
    method Update(keyDown: bool, keyHeld: bool, keyUp: bool, hits: seq<Raycast.Hit>) returns (r: Outcome<()>)
      requires Raycast.WellFormed(hits)
      modifies this, Raycast.DrawerSet(hits)`pullingOut, {lastDrawer}`pullingOut
      ensures r.Threw? <==> keyDown && hits == []
      ensures r.Threw? ==> unchanged(this)
      ensures r.Threw? ==>
        forall d :: d in Raycast.DrawerSet(hits) + {old(lastDrawer)} && d != null ==> d.pullingOut == old(d.pullingOut)
      ensures r.Returned? ==>
        forall d :: d in Raycast.DrawerSet(hits) + {old(lastDrawer)} && d != null ==>
          d.pullingOut == (if keyUp && d == lastDrawer then false
                           else if keyHeld && d in Raycast.DrawerSet(hits) then true
                           else old(d.pullingOut))
      ensures r.Returned? ==>
        numbersCollected == ClearOverflow(old(numbersCollected) + (if keyDown then FirstHitPress(hits) else []), codeCount) &&
        inventory == old(inventory) + (if keyDown then Raycast.Pickups(hits) else []) &&
        lastDrawer == (if keyHeld && Raycast.LastDrawer(hits) != null then Raycast.LastDrawer(hits) else old(lastDrawer))
      ensures r.Returned? && keyHeld ==>
        forall i :: 0 <= i < |hits| && Raycast.IsDrawer(hits[i]) ==>
          hits[i].drawer.pullingOut || (keyUp && hits[i].drawer == lastDrawer)
      ensures r.Returned? && keyUp && lastDrawer != null ==> !lastDrawer.pullingOut
      ensures codeCount == old(codeCount)
    {
      if keyDown {
        r := HandleKeypad(hits);
        if r.Threw? {
          return;
        }
        HandlePickup(hits);
      }
      if keyHeld {
        Raycast.LastDrawerExists(hits);
        HandleDrawer(hits);
      }
      if keyUp {
        LetGo();
      }
      if |numbersCollected| > codeCount {
        numbersCollected := [];
      }
      r := Returned(());
    }
  }
}
