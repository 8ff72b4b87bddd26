/**
 * What the interactors see of `Physics.RaycastAll`: the hits in the order the array holds
 * them, each with the hit object, its tag and the components the interactors look up on it.
 * The interactors' uses of a hit list (the first keypad button, the pickups, the drawers and
 * the doors) are defined here once for both copies of the interactor.
 */
module Raycast {
  import opened Wrappers
  import Collections
  import Engine
  import Gameplay
  import DoorController

  /**
   * One hit: the collider's game object, its tag, the `buttonValue` of its `ButtonStats`
   * (None when it has none), and its `DrawerPullout` and `DoorController` components (null
   * when it has none).  A drawer or door is identified with its component.
   */
  datatype Hit = Hit(obj: Engine.GameObject, tag: string, buttonValue: Option<int>,
                     drawer: Gameplay.DrawerPullout?, door: DoorController.DoorController?)

  /** Tagged "Button" and carrying a `ButtonStats`. */
  predicate IsKeypadButton(h: Hit)
  {
    h.tag == "Button" && h.buttonValue.Some?
  }

  predicate IsPickup(h: Hit)
  {
    h.tag == "Pickup"
  }

  predicate IsDrawer(h: Hit)
  {
    h.tag == "Drawer"
  }

  predicate IsDoor(h: Hit)
  {
    h.tag == "Door"
  }

  /**
   * The interactors fetch the `DrawerPullout` of every "Drawer" and the `DoorController`
   * of every "Door" and use it without a null check; the scenes tag only such objects.
   */
  predicate WellFormed(hits: seq<Hit>)
  {
    forall i :: 0 <= i < |hits| ==>
      (IsDrawer(hits[i]) ==> hits[i].drawer != null) && (IsDoor(hits[i]) ==> hits[i].door != null)
  }

  /** The value of the first keypad button among the hits, if there is one. */
  function FirstKeypadValue(hits: seq<Hit>): (r: Option<int>)
    ensures r.None? <==> forall i :: 0 <= i < |hits| ==> !IsKeypadButton(hits[i])
    ensures r.Some? ==> exists i :: 0 <= i < |hits| && IsKeypadButton(hits[i]) && hits[i].buttonValue == r &&
                                    forall j :: 0 <= j < i ==> !IsKeypadButton(hits[j])
  {
    if hits == [] then None
    else if IsKeypadButton(hits[0]) then hits[0].buttonValue
    else
      var r := FirstKeypadValue(hits[1..]);
      assert forall i :: 0 <= i < |hits| - 1 ==> hits[1..][i] == hits[i + 1];
      assert r.Some? ==> exists i :: 1 <= i < |hits| && IsKeypadButton(hits[i]) && hits[i].buttonValue == r &&
                                    forall j :: 0 <= j < i ==> !IsKeypadButton(hits[j]);
      r
  }

  /** The first keypad button's value as a list of zero or one numbers. */
  function KeypadPress(hits: seq<Hit>): (r: seq<int>)
  {
    match FirstKeypadValue(hits)
      case None => []
      case Some(v) => [v]
  }

  /** The objects of the "Pickup" hits, in hit order. */
  function Pickups(hits: seq<Hit>): (r: seq<Engine.GameObject>)
    ensures |r| == Collections.Count(hits, IsPickup)
  {
    if hits == [] then []
    else Pickups(hits[..|hits| - 1]) + (if IsPickup(hits[|hits| - 1]) then [hits[|hits| - 1].obj] else [])
  }

  /** An object is picked up exactly when some hit on it is tagged "Pickup". */
  lemma {:induction false} PickupsCharacterised(hits: seq<Hit>, x: Engine.GameObject)
    ensures x in Pickups(hits) <==> exists i :: 0 <= i < |hits| && IsPickup(hits[i]) && hits[i].obj == x
    decreases |hits|
  {
    if hits != [] {
      var pre := hits[..|hits| - 1];
      PickupsCharacterised(pre, x);
      assert forall i :: 0 <= i < |pre| ==> pre[i] == hits[i];
      if exists i :: 0 <= i < |hits| && IsPickup(hits[i]) && hits[i].obj == x {
        var i :| 0 <= i < |hits| && IsPickup(hits[i]) && hits[i].obj == x;
        if i < |pre| {
          assert IsPickup(pre[i]) && pre[i].obj == x;
        }
      }
    }
  }

  /** The `DrawerPullout` of the last "Drawer" hit, or null when there is none. */
  function LastDrawer(hits: seq<Hit>): Gameplay.DrawerPullout?
  {
    if hits == [] then null
    else if IsDrawer(hits[|hits| - 1]) then hits[|hits| - 1].drawer
    else LastDrawer(hits[..|hits| - 1])
  }

  /** With well-formed hits, there is a last drawer exactly when some hit is a drawer. */
  lemma {:induction false} LastDrawerExists(hits: seq<Hit>)
    requires WellFormed(hits)
    ensures LastDrawer(hits) == null <==> forall i :: 0 <= i < |hits| ==> !IsDrawer(hits[i])
    ensures LastDrawer(hits) != null ==> LastDrawer(hits) in DrawerSet(hits)
    decreases |hits|
  {
    if hits != [] {
      var pre := hits[..|hits| - 1];
      assert forall i :: 0 <= i < |pre| ==> pre[i] == hits[i];
      LastDrawerExists(pre);
    }
  }

  /** The `DrawerPullout` of each "Drawer" hit. */
  function DrawerSet(hits: seq<Hit>): (r: set<Gameplay.DrawerPullout?>)
    ensures forall i :: 0 <= i < |hits| && IsDrawer(hits[i]) ==> hits[i].drawer in r
  {
    set i | 0 <= i < |hits| && IsDrawer(hits[i]) :: hits[i].drawer
  }

  /** The `DoorController` of each "Door" hit. */
  function DoorSet(hits: seq<Hit>): (r: set<DoorController.DoorController?>)
    requires WellFormed(hits)
    ensures forall i :: 0 <= i < |hits| && IsDoor(hits[i]) ==> hits[i].door in r
    ensures forall d :: d in r ==> d != null && exists i :: 0 <= i < |hits| && IsDoor(hits[i]) && hits[i].door == d
  {
    set i | 0 <= i < |hits| && IsDoor(hits[i]) :: hits[i].door
  }
}
