/**
 * The player's interactor (InteractorMain.cs).  While the interact key is held, each frame
 * casts a ray and hands the hits to four handlers: the keypad (only on the first frame of a
 * press, through the `hasInteracted` latch), pickups, drawers and doors.  Releasing the key
 * opens the latch and lets go of the last drawer.  Every frame then cuts an over-long code
 * list down to its last number and shows the list, comma separated, on the code display.
 *
 * The pause flag, whether the input action and camera were found, whether the key is held,
 * and the ray's hits are parameters of `Update`.  Audio, the pickups' move below the map and
 * the drawers' own `PulloutDrawer` motion are not modelled.
 */
module InteractorMain {
  import opened Wrappers
  import SaveSystem
  import Engine
  import Gameplay
  import DoorController
  import Raycast

  /** The code list after the keypad handler of a frame with the key in state `interacting`. */
  function Entered(numbers: seq<int>, hasInteracted: bool, interacting: bool, hits: seq<Raycast.Hit>): seq<int>
  {
    if interacting && !hasInteracted then numbers + Raycast.KeypadPress(hits) else numbers
  }

  /**
   * The overflow rule: a list longer than `codeCount` becomes its last number alone.  Taking
   * that number from an empty list throws, so it throws only for a negative `codeCount` and
   * an empty list; otherwise a list within `codeCount` is kept and a longer one is replaced
   * by its last number.
   */
  function Overflow(numbers: seq<int>, codeCount: int): (r: Outcome<seq<int>>)
    ensures r.Threw? <==> codeCount < 0 && numbers == []
    ensures |numbers| <= codeCount ==> r == Returned(numbers)
    ensures |numbers| > codeCount && numbers != [] ==> r == Returned([numbers[|numbers| - 1]])
    ensures codeCount >= 1 ==> r.Returned? && |r.value| <= codeCount
  {
    if |numbers| > codeCount then
      if numbers == [] then Threw else Returned([numbers[|numbers| - 1]])
    else Returned(numbers)
  }

  /** The code list after a run of frames with the interact key held (`codeCount` as after `Start`'s default). */
  function HeldFrames(numbers: seq<int>, hasInteracted: bool, codeCount: nat, frames: seq<seq<Raycast.Hit>>): seq<int>
    decreases |frames|
  {
    if frames == [] then numbers
    else
      var next := Overflow(Entered(numbers, hasInteracted, true, frames[0]), codeCount);
      HeldFrames(if next.Returned? then next.value else numbers, true, codeCount, frames[1..])
  }

  /**
   * Holding the interact key adds at most one number: over any run of frames with the key
   * held, the code list ends as it was after the first of them.
   */
  lemma HoldAddsOnce(numbers: seq<int>, hasInteracted: bool, codeCount: nat, frames: seq<seq<Raycast.Hit>>)
    requires |frames| >= 1
    ensures HeldFrames(numbers, hasInteracted, codeCount, frames) == HeldFrames(numbers, hasInteracted, codeCount, frames[..1])
  {
    var entered := Entered(numbers, hasInteracted, true, frames[0]);
    var after := Overflow(entered, codeCount).value;
    assert Overflow(after, codeCount) == Returned(after);
    LatchedKeeps(after, codeCount, frames[1..]);
  }

  /** With the latch closed, further held frames leave a list the overflow rule keeps as it is. */
  lemma {:induction false} LatchedKeeps(numbers: seq<int>, codeCount: nat, frames: seq<seq<Raycast.Hit>>)
    requires Overflow(numbers, codeCount) == Returned(numbers)
    ensures HeldFrames(numbers, true, codeCount, frames) == numbers
    decreases |frames|
  {
    if frames != [] {
      LatchedKeeps(numbers, codeCount, frames[1..]);
    }
  }

  /**
   * The code display's text: the numbers separated by ", ", with no separator after the
   * last.  It is empty exactly for an empty list, one number alone for a one-number list,
   * and never ends in a space.
   */
  function Join(numbers: seq<int>): (text: string)
    ensures text == "" <==> numbers == []
    ensures |numbers| == 1 ==> text == SaveSystem.IntToString(numbers[0])
    ensures numbers != [] ==> text[|text| - 1] != ' '
  {
    if numbers == [] then ""
    else
      NumberHasNoSeparator(numbers[|numbers| - 1]);
      if |numbers| == 1 then SaveSystem.IntToString(numbers[0])
      else Join(numbers[..|numbers| - 1]) + ", " + SaveSystem.IntToString(numbers[|numbers| - 1])
  }

  /** A written number holds no comma and no space. */
  lemma NumberHasNoSeparator(n: int)
    ensures forall k :: 0 <= k < |SaveSystem.IntToString(n)| ==>
      SaveSystem.IntToString(n)[k] != ',' && SaveSystem.IntToString(n)[k] != ' '
  {
    var s := SaveSystem.IntToString(n);
    if n < 0 {
      assert forall k :: 1 <= k < |s| ==> s[k] == SaveSystem.NatToString(-n)[k - 1];
    }
  }

  /** A display with no comma shows at most one number. */
  lemma {:induction false} JoinComma(numbers: seq<int>)
    ensures |numbers| >= 2 <==> exists k :: 0 <= k < |Join(numbers)| && Join(numbers)[k] == ','
    decreases |numbers|
  {
    if |numbers| >= 2 {
      var pre := Join(numbers[..|numbers| - 1]);
      assert Join(numbers)[|pre|] == ',';
    } else if |numbers| == 1 {
      NumberHasNoSeparator(numbers[0]);
    }
  }

  /** The text after the last ", " is determined: two such splittings of one text agree. */
  lemma SplitAtLastSeparator(p: string, x: string, q: string, y: string)
    requires p + ", " + x == q + ", " + y
    requires forall k :: 0 <= k < |x| ==> x[k] != ',' && x[k] != ' '
    requires forall k :: 0 <= k < |y| ==> y[k] != ',' && y[k] != ' '
    ensures p == q && x == y
  {
    var j := p + ", " + x;
    assert forall k :: 0 <= k < |x| ==> j[|p| + 2 + k] == x[k];
    assert forall k :: 0 <= k < |y| ==> j[|q| + 2 + k] == y[k];
    assert j[|p|] == ',' && j[|p| + 1] == ' ';
    assert j[|q|] == ',' && j[|q| + 1] == ' ';
    assert |p| == |q|;
    assert p == j[..|p|] && q == j[..|q|];
    assert x == j[|p| + 2..] && y == j[|q| + 2..];
  }

  /** A display of one number has no comma, so it differs from every display of several. */
  lemma OneNumberNotMany(a: seq<int>, b: seq<int>)
    requires |a| == 1 && |b| >= 2
    ensures Join(a) != Join(b)
  {
    NumberHasNoSeparator(a[0]);
    assert Join(b)[|Join(b[..|b| - 1])|] == ',';
  }

  /** Two equal displays of several numbers end in the same number after equal displays. */
  lemma LastNumberSplits(a: seq<int>, b: seq<int>)
    requires |a| >= 2 && |b| >= 2 && Join(a) == Join(b)
    ensures Join(a[..|a| - 1]) == Join(b[..|b| - 1]) && a[|a| - 1] == b[|b| - 1]
  {
    var x, y := SaveSystem.IntToString(a[|a| - 1]), SaveSystem.IntToString(b[|b| - 1]);
    NumberHasNoSeparator(a[|a| - 1]);
    NumberHasNoSeparator(b[|b| - 1]);
    SplitAtLastSeparator(Join(a[..|a| - 1]), x, Join(b[..|b| - 1]), y);
    SaveSystem.IntToStringInjective(a[|a| - 1], b[|b| - 1]);
  }

  /** The display determines the list: different code lists are shown differently. */
  lemma {:induction false} JoinInjective(a: seq<int>, b: seq<int>)
    requires Join(a) == Join(b)
    ensures a == b
    decreases |a|
  {
    if |a| == 0 || |b| == 0 {
      assert Join(a) == "" <==> a == [];
    } else if |a| == 1 && |b| == 1 {
      SaveSystem.IntToStringInjective(a[0], b[0]);
    } else if |a| == 1 {
      OneNumberNotMany(a, b);
      assert false;
    } else if |b| == 1 {
      OneNumberNotMany(b, a);
      assert false;
    } else {
      var pa, pb := a[..|a| - 1], b[..|b| - 1];
      LastNumberSplits(a, b);
      JoinInjective(pa, pb);
      SameFrontSameLast(a, b);
    }
  }

  /** Two non-empty lists that agree before their last element and on it are equal. */
  lemma SameFrontSameLast(a: seq<int>, b: seq<int>)
    requires |a| >= 1 && |b| >= 1
    requires a[..|a| - 1] == b[..|b| - 1] && a[|a| - 1] == b[|b| - 1]
    ensures a == b
  {
    assert a == a[..|a| - 1] + [a[|a| - 1]] && b == b[..|b| - 1] + [b[|b| - 1]];
  }

  /**
   * The drawer rule after a frame's hits: with no drawer hit `lastDrawer` stays; otherwise
   * the last drawer hit becomes `lastDrawer`, and among the drawers hit and the one held
   * before, it is the only one pulling out.
   */
  predicate DrawersPulled(hits: seq<Raycast.Hit>, before: Gameplay.DrawerPullout?, after: Gameplay.DrawerPullout?)
    reads Raycast.DrawerSet(hits), {before}
  {
    if Raycast.LastDrawer(hits) == null then after == before
    else
      after == Raycast.LastDrawer(hits) &&
      forall d :: d in Raycast.DrawerSet(hits) + {before} && d != null ==> d.pullingOut == (d == after)
  }

  class InteractorMain {
    var inventory: seq<Engine.GameObject>
    var numbersCollected: seq<int>
    /** The text of the `CodeDisplay` label, or None when no label is assigned. */
    var codeDisplay: Option<string>
    var codeCount: int
    /** The drawer last interacted with, held by its `DrawerPullout`. */
    var lastDrawer: Gameplay.DrawerPullout?
    /** The latch that keeps a held key from entering more than one number. */
    var hasInteracted: bool

    constructor (codeCount: int, hasCodeDisplay: bool)
      ensures this.codeCount == codeCount && codeDisplay == (if hasCodeDisplay then Some("") else None)
      ensures inventory == [] && numbersCollected == [] && lastDrawer == null && !hasInteracted
    {
      this.codeCount := codeCount;
      codeDisplay := if hasCodeDisplay then Some("") else None;
      inventory, numbersCollected, lastDrawer, hasInteracted := [], [], null, false;
    }

    /** `Start`: a code length of 0 means the default of 3. */
    method Start()
      modifies this`codeCount
      ensures codeCount == (if old(codeCount) == 0 then 3 else old(codeCount))
    {
      if codeCount == 0 {
        codeCount := 3;
      }
    }

    /** `HandleSequence`: the loop stops at the first keypad button and adds its value. */
    method HandleSequence(hits: seq<Raycast.Hit>)
      modifies this`numbersCollected
      ensures numbersCollected == old(numbersCollected) + Raycast.KeypadPress(hits)
    {
      var i := 0;
      while i < |hits|
        invariant i <= |hits| && numbersCollected == old(numbersCollected)
        invariant Raycast.FirstKeypadValue(hits) == Raycast.FirstKeypadValue(hits[i..])
      {
        assert hits[i..][1..] == hits[i + 1..];
        if Raycast.IsKeypadButton(hits[i]) {
          numbersCollected := numbersCollected + [hits[i].buttonValue.value];
          return;
        }
        i := i + 1;
      }
    }

    /** `HandlePickup`: every "Pickup" hit joins the inventory, in hit order. */
    method HandlePickup(hits: seq<Raycast.Hit>)
      modifies this`inventory
      ensures inventory == old(inventory) + Raycast.Pickups(hits)
    {
      for i := 0 to |hits|
        invariant inventory == old(inventory) + Raycast.Pickups(hits[..i])
      {
        assert hits[..i + 1][..i] == hits[..i];
        if Raycast.IsPickup(hits[i]) {
          inventory := inventory + [hits[i].obj];
        }
      }
      assert hits[..|hits|] == hits;
    }

    /**
     * `HandleDrawer`: each "Drawer" hit lets go of the previous drawer when it is another
     * one, becomes `lastDrawer` and pulls out.
     */
    method HandleDrawer(hits: seq<Raycast.Hit>)
      requires Raycast.WellFormed(hits)
      modifies this`lastDrawer, Raycast.DrawerSet(hits)`pullingOut, {lastDrawer}`pullingOut
      ensures DrawersPulled(hits, old(lastDrawer), lastDrawer)
      ensures Raycast.LastDrawer(hits) == null ==>
        (lastDrawer == old(lastDrawer) && (lastDrawer != null ==> lastDrawer.pullingOut == old(lastDrawer.pullingOut)))
    {
      ghost var before := lastDrawer;
      ghost var touched: set<Gameplay.DrawerPullout?> := {before};
      for i := 0 to |hits|
        invariant before in touched && lastDrawer in touched && touched <= Raycast.DrawerSet(hits) + {before}
        invariant forall k :: 0 <= k < i && Raycast.IsDrawer(hits[k]) ==> hits[k].drawer in touched
        invariant Raycast.LastDrawer(hits[..i]) == null ==>
          (lastDrawer == before && touched == {before} && (before != null ==> before.pullingOut == old(before.pullingOut)))
        invariant Raycast.LastDrawer(hits[..i]) != null ==>
          (lastDrawer == Raycast.LastDrawer(hits[..i]) &&
           forall d :: d in touched && d != null ==> d.pullingOut == (d == lastDrawer))
      {
        assert hits[..i + 1][..i] == hits[..i];
        if Raycast.IsDrawer(hits[i]) {
          PullOut(hits[i].drawer);
          touched := touched + {hits[i].drawer};
        }
      }
      assert hits[..|hits|] == hits;
    }

    /** One drawer hit: the previous drawer, when another one, stops pulling out; this one starts. */
    method PullOut(drawer: Gameplay.DrawerPullout)
      modifies this`lastDrawer, {drawer, lastDrawer}`pullingOut
      ensures lastDrawer == drawer && drawer.pullingOut
      ensures old(lastDrawer) != null && old(lastDrawer) != drawer ==> !old(lastDrawer).pullingOut
    {
      if lastDrawer != drawer && lastDrawer != null {
        lastDrawer.pullingOut := false;
      }
      lastDrawer := drawer;
      drawer.pullingOut := true;
    }

    /** `HandleDoors`: every door hit records the interaction. */
    method HandleDoors(hits: seq<Raycast.Hit>)
      requires Raycast.WellFormed(hits)
      modifies Raycast.DoorSet(hits)`interacted
      ensures forall i :: 0 <= i < |hits| && Raycast.IsDoor(hits[i]) ==> hits[i].door.interacted
    {
      for i := 0 to |hits|
        invariant forall k :: 0 <= k < i && Raycast.IsDoor(hits[k]) ==> hits[k].door.interacted
      {
        if Raycast.IsDoor(hits[i]) {
          hits[i].door.interacted := true;
        }
      }
    }

    /** The display loop: each number but the last is followed by ", ". */
    method CodeToDisplay(numbers: seq<int>) returns (text: string)
      ensures text == Join(numbers)
    {
      text := "";
      for i := 0 to |numbers|
        invariant text == (if i == 0 then "" else Join(numbers[..i]) + (if i < |numbers| then ", " else ""))
      {
        assert numbers[..i + 1][..i] == numbers[..i];
        if i < |numbers| - 1 {
          text := text + SaveSystem.IntToString(numbers[i]) + ", ";
        } else {
          text := text + SaveSystem.IntToString(numbers[i]);
        }
      }
      assert numbers[..|numbers|] == numbers;
    }

    /** The frame's work while the key is held; the latch then closes. */
    method Interact(hits: seq<Raycast.Hit>)
      requires Raycast.WellFormed(hits)
      modifies this`numbersCollected, this`inventory, this`lastDrawer, this`hasInteracted
      modifies Raycast.DrawerSet(hits)`pullingOut, {lastDrawer}`pullingOut, Raycast.DoorSet(hits)`interacted
      ensures numbersCollected == Entered(old(numbersCollected), old(hasInteracted), true, hits)
      ensures inventory == old(inventory) + Raycast.Pickups(hits) && hasInteracted
      ensures DrawersPulled(hits, old(lastDrawer), lastDrawer)
      ensures Raycast.LastDrawer(hits) == null ==>
        (lastDrawer == old(lastDrawer) && (lastDrawer != null ==> lastDrawer.pullingOut == old(lastDrawer.pullingOut)))
      ensures forall i :: 0 <= i < |hits| && Raycast.IsDoor(hits[i]) ==> hits[i].door.interacted
    {
      if !hasInteracted {
        HandleSequence(hits);
      }
      HandlePickup(hits);
      HandleDrawer(hits);
      HandleDoors(hits);
      hasInteracted := true;
    }

    /** The frame's work while the key is up: the latch opens and the last drawer is let go. */
    method Release()
      modifies this`hasInteracted, {lastDrawer}`pullingOut
      ensures !hasInteracted && (lastDrawer != null ==> !lastDrawer.pullingOut)
    {
      hasInteracted := false;
      if lastDrawer != null {
        lastDrawer.pullingOut := false;
      }
    }

    /** The overflow rule, then the code display. */
    method ShowCode() returns (r: Outcome<()>)
      modifies this`numbersCollected, this`codeDisplay
      ensures r.Threw? <==> Overflow(old(numbersCollected), codeCount).Threw?
      ensures r.Threw? ==> numbersCollected == old(numbersCollected) && codeDisplay == old(codeDisplay)
      ensures r.Returned? ==>
        (numbersCollected == Overflow(old(numbersCollected), codeCount).value &&
         codeDisplay == (if old(codeDisplay).Some? then Some(Join(numbersCollected)) else None))
    {
      if |numbersCollected| > codeCount {
        if numbersCollected == [] {
          return Threw;
        }
        var lastNum := numbersCollected[|numbersCollected| - 1];
        numbersCollected := [lastNum];
      }
      var text := "";
      if numbersCollected != [] {
        text := CodeToDisplay(numbersCollected);
      }
      if codeDisplay.Some? {
        codeDisplay := Some(text);
      }
      r := Returned(());
    }

    /**
     * `Update`, for one frame: nothing while paused or unready; otherwise the held or
     * released key's work, then the overflow rule and the display.
     */
    method Update(paused: bool, ready: bool, interacting: bool, hits: seq<Raycast.Hit>) returns (r: Outcome<()>)
      requires Raycast.WellFormed(hits)
      modifies this, Raycast.DrawerSet(hits)`pullingOut, {lastDrawer}`pullingOut, Raycast.DoorSet(hits)`interacted
      ensures paused || !ready ==>
        (r == Returned(()) && unchanged(this) &&
         (forall d :: d in Raycast.DrawerSet(hits) + {lastDrawer} && d != null ==> d.pullingOut == old(d.pullingOut)) &&
         forall d :: d in Raycast.DoorSet(hits) && d != null ==> d.interacted == old(d.interacted))
      ensures !paused && ready ==>
        var entered := Entered(old(numbersCollected), old(hasInteracted), interacting, hits);
        hasInteracted == interacting && codeCount == old(codeCount) &&
        inventory == old(inventory) + (if interacting then Raycast.Pickups(hits) else []) &&
        (r.Threw? <==> Overflow(entered, codeCount).Threw?) &&
        (r.Threw? ==> numbersCollected == entered && codeDisplay == old(codeDisplay)) &&
        (r.Returned? ==>
          (numbersCollected == Overflow(entered, codeCount).value &&
           codeDisplay == (if old(codeDisplay).Some? then Some(Join(numbersCollected)) else None)))
      ensures !paused && ready && interacting ==>
        DrawersPulled(hits, old(lastDrawer), lastDrawer) &&
        forall i :: 0 <= i < |hits| && Raycast.IsDoor(hits[i]) ==> hits[i].door.interacted
      ensures !paused && ready && interacting && Raycast.LastDrawer(hits) == null ==>
        lastDrawer == old(lastDrawer) && (lastDrawer != null ==> lastDrawer.pullingOut == old(lastDrawer.pullingOut))
      ensures !paused && ready && !interacting ==>
        lastDrawer == old(lastDrawer) && (lastDrawer != null ==> !lastDrawer.pullingOut)
      ensures !paused && ready && !interacting ==>
        (forall d :: d in Raycast.DrawerSet(hits) && d != null && d != lastDrawer ==> d.pullingOut == old(d.pullingOut)) &&
        forall d :: d in Raycast.DoorSet(hits) ==> d.interacted == old(d.interacted)
    {
      if paused || !ready {
        return Returned(());
      }
      if interacting {
        Interact(hits);
      } else {
        Release();
      }
      r := ShowCode();
    }
  }
}
