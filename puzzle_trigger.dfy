/**
 * The puzzle 3.3 area trigger (Puzzle3.3/PuzzleTrigger.cs).  Its puzzle elements start
 * hidden; they appear while the player is inside the trigger and disappear when the player
 * leaves.  Other colliders do nothing.  The other collider's tag is a parameter of the
 * trigger messages.
 */
module PuzzleTrigger {
  import Engine
  import Contacts

  const PlayerTag := "Player"

  /** Only the player counts. */
  function IsPlayer(): string -> bool
  {
    tag => tag == PlayerTag
  }

  /** The elements as a set. */
  function Elements(s: seq<Engine.GameObject>): set<Engine.GameObject>
  {
    set e | e in s
  }

  /**
   * After `Start`, an element is shown exactly when the player's last contact with the
   * trigger was an enter; it stays hidden while the player has not touched it.
   */
  lemma ShownAfterContacts(cs: seq<Contacts.Contact>)
    ensures (forall i :: 0 <= i < |cs| ==> cs[i].tag != PlayerTag) ==> !Contacts.Latch(false, IsPlayer(), cs)
    ensures forall i :: 0 <= i < |cs| && cs[i].tag == PlayerTag && (forall j :: i < j < |cs| ==> cs[j].tag != PlayerTag) ==>
      Contacts.Latch(false, IsPlayer(), cs) == cs[i].Enter?
  {
    Contacts.LastMatchDecides(false, IsPlayer(), cs);
  }

  class PuzzleTrigger {
    const puzzleElement: seq<Engine.GameObject>

    constructor (puzzleElement: seq<Engine.GameObject>)
      ensures this.puzzleElement == puzzleElement
    {
      this.puzzleElement := puzzleElement;
    }

    /** The element loop: every element gets `SetActive(value)`. */
    method SetAll(value: bool)
      modifies Elements(puzzleElement)
      ensures forall e :: e in puzzleElement ==> e.activeSelf == value
    {
      for i := 0 to |puzzleElement|
        invariant forall k :: 0 <= k < i ==> puzzleElement[k].activeSelf == value
      {
        puzzleElement[i].SetActive(value);
      }
    }

    /** `Start`: every element is hidden. */
    method Start()
      modifies Elements(puzzleElement)
      ensures forall e :: e in puzzleElement ==> !e.activeSelf
    {
      SetAll(false);
    }

    /** `OnTriggerEnter`: the player's arrival shows every element; another collider changes nothing. */
    method OnTriggerEnter(otherTag: string)
      modifies Elements(puzzleElement)
      ensures forall e :: e in puzzleElement ==>
        e.activeSelf == Contacts.Step(old(e.activeSelf), IsPlayer(), Contacts.Enter(otherTag))
      ensures otherTag != PlayerTag ==> unchanged(Elements(puzzleElement))
    {
      if otherTag == PlayerTag {
        SetAll(true);
      }
    }

    /** `OnTriggerExit`: the player's leaving hides every element; another collider changes nothing. */
    method OnTriggerExit(otherTag: string)
      modifies Elements(puzzleElement)
      ensures forall e :: e in puzzleElement ==>
        e.activeSelf == Contacts.Step(old(e.activeSelf), IsPlayer(), Contacts.Exit(otherTag))
      ensures otherTag != PlayerTag ==> unchanged(Elements(puzzleElement))
    {
      if otherTag == PlayerTag {
        SetAll(false);
      }
    }
  }
}
