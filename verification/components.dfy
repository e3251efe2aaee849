/** The per-body components the gravity system works on
    (Assets/Scripts/Gravity.cs) and the part of Unity's Rigidbody it reads. */
module Components {
  import opened Vectors

  /** A physics body: the gravity system reads its mass. */
  class Rigidbody {
    var mass: real

    constructor (mass: real)
      ensures this.mass == mass
    {
      this.mass := mass;
    }
  }

  /** The Gravity component: four settings and the cached gravity vector
      that the gravity system writes. `position` is the position of the
      component's transform, which the host moves; `rigidbody` is what
      GetComponent<Rigidbody>() finds on the same game object. */
  class Gravity {
    var useGravity: bool
    var autoOrientDownwards: bool
    var autoOrientSqrMagThreshold: real
    var gravityVelocity: Vec3
    var position: Vec3
    const rigidbody: Rigidbody?

    constructor (position: Vec3, rigidbody: Rigidbody?)
      ensures useGravity && !autoOrientDownwards
      ensures autoOrientSqrMagThreshold == 0.0 && gravityVelocity == Zero
      ensures this.position == position && this.rigidbody == rigidbody
    {
      useGravity := true;
      autoOrientDownwards := false;
      autoOrientSqrMagThreshold := 0.0;
      gravityVelocity := Zero;
      this.position := position;
      this.rigidbody := rigidbody;
    }
  }
}
