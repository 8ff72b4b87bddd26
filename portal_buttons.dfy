/**
 * The pressure button (PortalButtons.cs).  A button tagged "ShadowButton" is held down by
 * a collider tagged "Shadow", one tagged "Button" by the player; any other pairing has no
 * effect.  Each frame the button sits at its pressed position while active and at its
 * resting position otherwise; the pressed position is a quarter unit below the resting one.
 *
 * The button's own tag is a constant, the other collider's tag a parameter of the trigger
 * messages.  Positions are real-valued: float rounding of `y - 0.25` is not modelled.
 */
module PortalButtons {
  import Engine
  import Contacts

  const ShadowButtonTag := "ShadowButton"
  const ShadowTag := "Shadow"
  const ButtonTag := "Button"
  const PlayerTag := "Player"

  /** Whether a collider tagged `otherTag` presses a button tagged `selfTag`. */
  predicate Presses(selfTag: string, otherTag: string)
  {
    (selfTag == ShadowButtonTag && otherTag == ShadowTag) || (selfTag == ButtonTag && otherTag == PlayerTag)
  }

  /** The rule as a predicate on the other collider's tag. */
  function PressedBy(selfTag: string): string -> bool
  {
    otherTag => Presses(selfTag, otherTag)
  }

  /**
   * Each button tag has exactly one pressing tag, and a button with any other tag is
   * never pressed: the two checks of a trigger message never both apply.
   */
  lemma OnePressingTag(selfTag: string, otherTag: string, otherTag': string)
    ensures Presses(selfTag, otherTag) && Presses(selfTag, otherTag') ==> otherTag == otherTag'
    ensures Presses(selfTag, otherTag) ==> selfTag == ShadowButtonTag || selfTag == ButtonTag
    ensures !Presses(ShadowButtonTag, PlayerTag) && !Presses(ButtonTag, ShadowTag)
  {
  }

  /** Over a run of contacts, a button is active exactly when its last pressing contact was an enter. */
  lemma ActiveAfterContacts(active: bool, selfTag: string, cs: seq<Contacts.Contact>)
    ensures (forall i :: 0 <= i < |cs| ==> !Presses(selfTag, cs[i].tag)) ==>
      Contacts.Latch(active, PressedBy(selfTag), cs) == active
    ensures forall i :: 0 <= i < |cs| && Presses(selfTag, cs[i].tag) && (forall j :: i < j < |cs| ==> !Presses(selfTag, cs[j].tag)) ==>
      Contacts.Latch(active, PressedBy(selfTag), cs) == cs[i].Enter?
  {
    Contacts.LastMatchDecides(active, PressedBy(selfTag), cs);
  }

  /** The pressed position for a button resting at `p`: a quarter unit lower. */
  function PressedFrom(p: Engine.Vector3): (q: Engine.Vector3)
    ensures q.x == p.x && q.z == p.z && q.y < p.y
  {
    Engine.Vector3(p.x, p.y - 0.25, p.z)
  }

  class PortalButtons {
    /** The tag of this button's game object. */
    const tag: string
    const transform: Engine.Transform
    var pressedPos: Engine.Vector3
    var unpressedPos: Engine.Vector3
    var activeState: bool

    constructor (tag: string, transform: Engine.Transform)
      ensures this.tag == tag && this.transform == transform && !activeState
    {
      this.tag, this.transform := tag, transform;
      pressedPos, unpressedPos := Engine.Zero, Engine.Zero;
      activeState := false;
    }

    /** `Start`: the resting position is where the button is; the pressed one is below it. */
    method Start()
      modifies this`pressedPos, this`unpressedPos
      ensures unpressedPos == transform.position && pressedPos == PressedFrom(unpressedPos)
    {
      unpressedPos := transform.position;
      var whenPressedPos := Engine.Vector3(transform.position.x, transform.position.y - 0.25, transform.position.z);
      pressedPos := whenPressedPos;
    }

    /** `Update`: the button is placed at its pressed position exactly when it is active. */
    method Update()
      modifies transform`position
      ensures transform.position == if activeState then pressedPos else unpressedPos
    {
      if activeState {
        transform.position := pressedPos;
      } else {
        transform.position := unpressedPos;
      }
    }

    /** `OnTriggerEnter`: a pressing collider activates the button; any other leaves it as it was. */
    method OnTriggerEnter(otherTag: string)
      modifies this`activeState
      ensures activeState == Contacts.Step(old(activeState), PressedBy(tag), Contacts.Enter(otherTag))
    {
      if tag == ShadowButtonTag && otherTag == ShadowTag {
        activeState := true;
      }
      if tag == ButtonTag && otherTag == PlayerTag {
        activeState := true;
      }
    }

    /** `OnTriggerExit`: a pressing collider leaving deactivates the button; any other leaves it as it was. */
    method OnTriggerExit(otherTag: string)
      modifies this`activeState
      ensures activeState == Contacts.Step(old(activeState), PressedBy(tag), Contacts.Exit(otherTag))
    {
      if tag == ShadowButtonTag && otherTag == ShadowTag {
        activeState := false;
      }
      if tag == ButtonTag && otherTag == PlayerTag {
        activeState := false;
      }
    }
  }
}
