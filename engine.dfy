/**
 * Stand-ins for the engine objects the core reads and writes.  Vectors and quaternions
 * are opaque records of their components: nothing in the core computes with them, it
 * only copies them.  World and local space are kept as separate fields of a transform;
 * how the engine derives one from the other through the parent is not modelled.
 */
module Engine {

  datatype Vector3 = Vector3(x: real, y: real, z: real)

  datatype Quaternion = Quaternion(x: real, y: real, z: real, w: real)

  /** `Vector3.zero`. */
  const Zero := Vector3(0.0, 0.0, 0.0)

  /** The pose fields of a `Transform` that the core touches. */
  datatype TransformValues = TransformValues(
    position: Vector3, rotation: Quaternion,
    localPosition: Vector3, localRotation: Quaternion,
    localScale: Vector3)

  class Transform {
    var position: Vector3
    var rotation: Quaternion
    var localPosition: Vector3
    var localRotation: Quaternion
    var localScale: Vector3

    constructor (v: TransformValues)
      ensures Values() == v
    {
      position, rotation := v.position, v.rotation;
      localPosition, localRotation := v.localPosition, v.localRotation;
      localScale := v.localScale;
    }

    /** All pose fields at once. */
    function Values(): TransformValues
      reads this
    {
      TransformValues(position, rotation, localPosition, localRotation, localScale)
    }
  }

  class Rigidbody {
    var isKinematic: bool
    var linearVelocity: Vector3
    var angularVelocity: Vector3

    constructor (isKinematic: bool, linearVelocity: Vector3, angularVelocity: Vector3)
      ensures this.isKinematic == isKinematic
      ensures this.linearVelocity == linearVelocity && this.angularVelocity == angularVelocity
    {
      this.isKinematic, this.linearVelocity, this.angularVelocity := isKinematic, linearVelocity, angularVelocity;
    }
  }

  class CharacterController {
    var enabled: bool

    constructor (enabled: bool)
      ensures this.enabled == enabled
    {
      this.enabled := enabled;
    }
  }

  /**
   * A UGUI `Toggle`.  `notified` lists, in order, the values `onValueChanged` was invoked
   * with.  Toggle groups, which may force a toggle back on, are not modelled.
   */
  class Toggle {
    var isOn: bool
    var notified: seq<bool>

    constructor (isOn: bool)
      ensures this.isOn == isOn && notified == []
    {
      this.isOn, notified := isOn, [];
    }

    /** The `isOn` setter: it invokes `onValueChanged` itself, but only when the value changes. */
    method SetIsOn(value: bool)
      modifies this
      ensures isOn == value
      ensures notified == old(notified) + (if old(isOn) != value then [value] else [])
    {
      if isOn != value {
        isOn := value;
        notified := notified + [value];
      }
    }

    /** `onValueChanged.Invoke(value)`. */
    method InvokeValueChanged(value: bool)
      modifies this
      ensures isOn == old(isOn) && notified == old(notified) + [value]
    {
      notified := notified + [value];
    }
  }

  /** An `AudioSource`: whether it is playing, and how often `Play` was called. */
  class AudioSource {
    var isPlaying: bool
    var plays: nat

    constructor (isPlaying: bool)
      ensures this.isPlaying == isPlaying && plays == 0
    {
      this.isPlaying, plays := isPlaying, 0;
    }

    method Play()
      modifies this
      ensures isPlaying && plays == old(plays) + 1
    {
      isPlaying := true;
      plays := plays + 1;
    }

    /** The clip ends, or `Stop` is called. */
    method Stop()
      modifies this
      ensures !isPlaying && plays == old(plays)
    {
      isPlaying := false;
    }
  }

  /** A `GameObject`, compared by reference; only whether it is active matters here. */
  class GameObject {
    var activeSelf: bool

    constructor (activeSelf: bool)
      ensures this.activeSelf == activeSelf
    {
      this.activeSelf := activeSelf;
    }

    method SetActive(value: bool)
      modifies this
      ensures activeSelf == value
    {
      activeSelf := value;
    }
  }

  /** A TextMeshPro label; only its text matters. */
  class Text {
    var text: string

    constructor (text: string)
      ensures this.text == text
    {
      this.text := text;
    }
  }
}
