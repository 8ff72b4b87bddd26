/**
 * The pressure button of puzzle 3.3 (Puzzle3.3/PortalButtons.cs).  It follows the same
 * tag rule and placement as the other copy (PortalButtons.cs), but it is a `Button`: the
 * `activeState` it sets is the inherited one, the flag a puzzle door reads.  The `Button`
 * part is a separate object here, `button`.
 */
module PortalButtonsPuzzle33 {
  import Engine
  import Gameplay
  import Contacts
  import First = PortalButtons

  class PortalButtons {
    const tag: string
    const transform: Engine.Transform
    /** The inherited `Button` part, which holds `activeState`. */
    const button: Gameplay.Button
    var pressedPos: Engine.Vector3
    var unpressedPos: Engine.Vector3

    constructor (tag: string, transform: Engine.Transform, button: Gameplay.Button)
      ensures this.tag == tag && this.transform == transform && this.button == button
    {
      this.tag, this.transform, this.button := tag, transform, button;
      pressedPos, unpressedPos := Engine.Zero, Engine.Zero;
    }

    method Start()
      modifies this`pressedPos, this`unpressedPos
      ensures unpressedPos == transform.position && pressedPos == First.PressedFrom(unpressedPos)
    {
      unpressedPos := transform.position;
      var whenPressedPos := Engine.Vector3(transform.position.x, transform.position.y - 0.25, transform.position.z);
      pressedPos := whenPressedPos;
    }

    method Update()
      modifies transform`position
      ensures transform.position == if button.activeState then pressedPos else unpressedPos
    {
      if button.activeState {
        transform.position := pressedPos;
      } else {
        transform.position := unpressedPos;
      }
    }

    method OnTriggerEnter(otherTag: string)
      modifies button`activeState
      ensures button.activeState == Contacts.Step(old(button.activeState), First.PressedBy(tag), Contacts.Enter(otherTag))
    {
      if tag == First.ShadowButtonTag && otherTag == First.ShadowTag {
        button.activeState := true;
      }
      if tag == First.ButtonTag && otherTag == First.PlayerTag {
        button.activeState := true;
      }
    }

    method OnTriggerExit(otherTag: string)
      modifies button`activeState
      ensures button.activeState == Contacts.Step(old(button.activeState), First.PressedBy(tag), Contacts.Exit(otherTag))
    {
      if tag == First.ShadowButtonTag && otherTag == First.ShadowTag {
        button.activeState := false;
      }
      if tag == First.ButtonTag && otherTag == First.PlayerTag {
        button.activeState := false;
      }
    }
  }
}
