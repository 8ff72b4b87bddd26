/**
 * The transform adapter (TransformSaveAdapter.cs): saves a pose and scale, and on restore
 * teleports the object there, either at once or one frame later, with a character
 * controller switched off and a rigidbody made kinematic while the pose is written.
 */
module TransformSaveAdapter {
  import opened Wrappers
  import opened Engine

  /** The adapter's nested `State` record. */
  datatype State = State(position: Vector3, rotation: Quaternion, localScale: Vector3)

  /** What `CaptureState` records: the pose in the chosen space, and always the local scale. */
  function Captured(useLocalSpace: bool, t: TransformValues): (s: State)
    ensures s.localScale == t.localScale
    ensures useLocalSpace ==> s.position == t.localPosition && s.rotation == t.localRotation
    ensures !useLocalSpace ==> s.position == t.position && s.rotation == t.rotation
  {
    if useLocalSpace then State(t.localPosition, t.localRotation, t.localScale)
    else State(t.position, t.rotation, t.localScale)
  }

  /**
   * The pose write of `ApplyNow`: the chosen space's position and rotation, then the scale.
   * Capturing in the same space afterwards gives back the state that was written, and the
   * pose fields of the other space are not written.
   */
  function Posed(useLocalSpace: bool, t: TransformValues, s: State): (r: TransformValues)
    ensures Captured(useLocalSpace, r) == s
    ensures useLocalSpace ==> r.position == t.position && r.rotation == t.rotation
    ensures !useLocalSpace ==> r.localPosition == t.localPosition && r.localRotation == t.localRotation
  {
    if useLocalSpace then t.(localPosition := s.position, localRotation := s.rotation, localScale := s.localScale)
    else t.(position := s.position, rotation := s.rotation, localScale := s.localScale)
  }

  /** Writing back what was captured changes nothing: capture then apply is the identity. */
  lemma ApplyCapturedIsIdentity(useLocalSpace: bool, t: TransformValues)
    ensures Posed(useLocalSpace, t, Captured(useLocalSpace, t)) == t
  {
  }

  /**
   * The components as they were at the moment the pose was written: the controller's
   * `enabled` and the rigidbody's `isKinematic`, or `None` for a missing component.
   */
  datatype WriteContext = WriteContext(controllerEnabled: Option<bool>, kinematic: Option<bool>)

  class TransformSaveAdapter {
    var useLocalSpace: bool
    var applyNextFrame: bool
    var zeroRigidbodyVelocity: bool
    var characterControllerSafeTeleport: bool

    /** The object's transform and its optional `Rigidbody` and `CharacterController`. */
    const transform: Transform
    const rb: Rigidbody?
    const cc: CharacterController?

    /** States handed to `ApplyAfterOneFrame` coroutines that have not resumed yet, oldest first. */
    var pending: seq<State>

    /** The context of every pose write so far, in order. */
    ghost var poseWrites: seq<WriteContext>

    constructor (transform: Transform, rb: Rigidbody?, cc: CharacterController?)
      ensures this.transform == transform && this.rb == rb && this.cc == cc
      ensures !useLocalSpace && applyNextFrame && zeroRigidbodyVelocity && characterControllerSafeTeleport
      ensures pending == [] && poseWrites == []
    {
      this.transform, this.rb, this.cc := transform, rb, cc;
      useLocalSpace, applyNextFrame := false, true;
      zeroRigidbodyVelocity, characterControllerSafeTeleport := true, true;
      pending, poseWrites := [], [];
    }

    method CaptureState() returns (s: State)
      ensures s == Captured(useLocalSpace, transform.Values())
    {
      if useLocalSpace {
        s := State(transform.localPosition, transform.localRotation, transform.localScale);
      } else {
        s := State(transform.position, transform.rotation, transform.localScale);
      }
    }

    /** `RestoreState`: apply now, or start a coroutine that applies after one frame. */
    method RestoreState(s: State)
      modifies this, transform, rb, cc
      ensures applyNextFrame ==> pending == old(pending) + [s] && poseWrites == old(poseWrites)
      ensures applyNextFrame ==> unchanged(transform) && (rb != null ==> unchanged(rb)) && (cc != null ==> unchanged(cc))
      ensures !applyNextFrame ==> pending == old(pending) && Applied(s)
      ensures useLocalSpace == old(useLocalSpace) && applyNextFrame == old(applyNextFrame)
      ensures zeroRigidbodyVelocity == old(zeroRigidbodyVelocity)
      ensures characterControllerSafeTeleport == old(characterControllerSafeTeleport)
    {
      if applyNextFrame {
        pending := pending + [s];
      } else {
        ApplyNow(s);
      }
    }

    /** The oldest deferred restore resumes: the rest of `ApplyAfterOneFrame`. */
    method ApplyAfterOneFrame()
      requires pending != []
      modifies this, transform, rb, cc
      ensures pending == old(pending[1..]) && Applied(old(pending[0]))
      ensures useLocalSpace == old(useLocalSpace) && applyNextFrame == old(applyNextFrame)
      ensures zeroRigidbodyVelocity == old(zeroRigidbodyVelocity)
      ensures characterControllerSafeTeleport == old(characterControllerSafeTeleport)
    {
      var s := pending[0];
      pending := pending[1..];
      ApplyNow(s);
    }

    /**
     * Everything `ApplyNow(s)` promises, relating the state after it to the state before:
     * the pose is written in the chosen space with the controller off and the body
     * kinematic, both flags end as they started, and velocities are zeroed only when a
     * rigidbody exists and `zeroRigidbodyVelocity` is set.
     */
    twostate predicate Applied(s: State)
      reads this, transform, rb, cc
    {
      && transform.Values() == Posed(useLocalSpace, old(transform.Values()), s)
      && poseWrites == old(poseWrites) + [WriteContext(
           if cc == null then None
           else if characterControllerSafeTeleport then Some(false)
           else Some(old(cc.enabled)),
           if rb == null then None else Some(true))]
      && (cc != null ==> cc.enabled == old(cc.enabled))
      && (rb != null ==> rb.isKinematic == old(rb.isKinematic))
      && (rb != null && zeroRigidbodyVelocity ==> rb.linearVelocity == Zero && rb.angularVelocity == Zero)
      && (rb != null && !zeroRigidbodyVelocity ==>
            rb.linearVelocity == old(rb.linearVelocity) && rb.angularVelocity == old(rb.angularVelocity))
    }

    method ApplyNow(s: State)
      modifies this`poseWrites, transform, rb, cc
      ensures Applied(s)
    {
      var ccWasEnabled := false;
      if characterControllerSafeTeleport && cc != null {
        ccWasEnabled := cc.enabled;
        cc.enabled := false;
      }

      if rb != null {
        var wasKinematic := rb.isKinematic;
        rb.isKinematic := true;
        WritePose(s);
        if zeroRigidbodyVelocity {
          rb.linearVelocity := Zero;
          rb.angularVelocity := Zero;
        }
        rb.isKinematic := wasKinematic;
      } else {
        WritePose(s);
      }

      if characterControllerSafeTeleport && cc != null {
        if ccWasEnabled {
          cc.enabled := true;
        }
      }
    }

    /** The pose write itself, recording the components' state at that moment. */
    method WritePose(s: State)
      modifies this`poseWrites, transform
      ensures transform.Values() == Posed(useLocalSpace, old(transform.Values()), s)
      ensures poseWrites == old(poseWrites) + [WriteContext(
        if cc == null then None else Some(cc.enabled),
        if rb == null then None else Some(rb.isKinematic))]
    {
      if useLocalSpace {
        transform.localPosition := s.position;
        transform.localRotation := s.rotation;
      } else {
        transform.position, transform.rotation := s.position, s.rotation;
      }
      transform.localScale := s.localScale;
      poseWrites := poseWrites + [WriteContext(
        if cc == null then None else Some(cc.enabled),
        if rb == null then None else Some(rb.isKinematic))];
    }
  }
}
