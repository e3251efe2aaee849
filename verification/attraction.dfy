/** What the gravity system asks of the physics engine every frame
    (Assets/Scripts/GravitySystem.cs, AttractMasses): for each slot in
    index order, a force from the cached gravity vector and, for bodies that
    orient themselves, a rotation towards "down". Rigid bodies are identified
    by a reference of type `R`. */
module Attraction {
  import opened Vectors

  /** What AttractMasses reads from a slot: nothing when the slot is empty,
      otherwise the slot's rigid body and the body's cached gravity vector
      and orientation settings. */
  datatype Slot<R> =
    | Vacant
    | Held(rb: R, velocity: Vec3, autoOrient: bool, threshold: real)

  /** A call into the physics engine, tagged with the slot that made it.
      AddForce is Rigidbody.AddForce(force); Reorient sets the transform's
      rotation to the spherical interpolation, by `fraction`, from its
      current rotation towards the one whose up axis points away from
      `gravity`. */
  datatype PhysicsCall<R> =
    | AddForce(slot: nat, rb: R, force: Vec3)
    | Reorient(slot: nat, rb: R, gravity: Vec3, fraction: real)

  /** The calls made during one pass, and whether the pass was cut short by
      reading an empty slot. */
  datatype Outcome<R> = Outcome(calls: seq<PhysicsCall<R>>, faulted: bool)

  /** A held slot whose cached vector does not compare equal to zero; an
      exactly zero vector never pushes. */
  predicate Pushes<R>(s: Slot<R>): (r: bool)
    ensures r ==> s.Held? && s.velocity != Zero
  {
    s.Held? && !ApproxZero(s.velocity)
  }

  /** A pushing slot that also orients itself and whose gravity is strong
      enough; an exactly zero vector never turns. */
  predicate Turns<R>(s: Slot<R>): (r: bool)
    ensures r ==> s.Held? && s.autoOrient && s.velocity != Zero
  {
    Pushes(s) && s.autoOrient && SqrMag(s.velocity) > s.threshold
  }

  /** Of the two tests a self-orienting slot must pass, one decides: below
      the equality tolerance, as with the default threshold 0, the slot turns
      exactly when it pushes; at or above it, the threshold alone decides. */
  lemma TurnsByThreshold<R>(s: Slot<R>)
    requires s.Held? && s.autoOrient
    ensures s.threshold < Epsilon * Epsilon ==> (Turns(s) <==> Pushes(s))
    ensures s.threshold >= Epsilon * Epsilon ==> (Turns(s) <==> SqrMag(s.velocity) > s.threshold)
  {
  }

  /** The calls made for held slot `i` in a frame of length `dt`, rotating at
      `speed`. */
  function SlotCalls<R>(i: nat, s: Slot<R>, dt: real, speed: real): (r: seq<PhysicsCall<R>>)
    requires s.Held?
    ensures forall c :: c in r ==> c.slot == i && c.rb == s.rb
  {
    if ApproxZero(s.velocity) then []
    else
      [AddForce(i, s.rb, Scale(s.velocity, dt))]
      + (if s.autoOrient && SqrMag(s.velocity) > s.threshold
         then [Reorient(i, s.rb, s.velocity, speed * dt)] else [])
  }

  /** One pass over the slots in index order. Reading an empty slot faults:
      the pass stops there, keeping the calls already made. */
  function Attract<R>(slots: seq<Slot<R>>, dt: real, speed: real): (r: Outcome<R>)
    decreases |slots|
    ensures forall c :: c in r.calls ==> c.slot < |slots|
  {
    if slots == [] then Outcome([], false)
    else
      var n := |slots| - 1;
      var prev := Attract(slots[..n], dt, speed);
      if prev.faulted then prev
      else if slots[n].Vacant? then Outcome(prev.calls, true)
      else Outcome(prev.calls + SlotCalls(n, slots[n], dt, speed), false)
  }

  /** The pass faults exactly when some slot is empty. */
  lemma {:induction false} AttractFaultsIff<R>(slots: seq<Slot<R>>, dt: real, speed: real)
    ensures Attract(slots, dt, speed).faulted <==> exists j :: 0 <= j < |slots| && slots[j].Vacant?
  {
    if slots != [] {
      var n := |slots| - 1;
      AttractFaultsIff(slots[..n], dt, speed);
      assert forall j :: 0 <= j < n ==> slots[..n][j] == slots[j];
    }
  }

  /** An empty slot ends the pass: whatever lies after it, the calls are those
      made for the slots before it. */
  lemma {:induction false} AttractStopsAt<R>(slots: seq<Slot<R>>, k: nat, dt: real, speed: real)
    requires k < |slots| && slots[k].Vacant?
    ensures Attract(slots, dt, speed) == Outcome(Attract(slots[..k], dt, speed).calls, true)
  {
    var n := |slots| - 1;
    if n > k {
      assert slots[..n][..k] == slots[..k];
      AttractStopsAt(slots[..n], k, dt, speed);
      assert Attract(slots[..n], dt, speed).faulted;
    } else {
      assert slots[..n] == slots[..k];
    }
  }

  /** Up to the first empty slot, slot `i` receives a force of its cached
      vector times `dt` exactly when that vector is not zero, and a
      reorientation exactly when it also orients itself and its squared
      magnitude is above its threshold. */
  lemma {:induction false} AttractCallsFor<R>(slots: seq<Slot<R>>, i: nat, dt: real, speed: real)
    requires i < |slots|
    requires forall j :: 0 <= j <= i ==> slots[j].Held?
    ensures AddForce(i, slots[i].rb, Scale(slots[i].velocity, dt)) in Attract(slots, dt, speed).calls
            <==> Pushes(slots[i])
    ensures Reorient(i, slots[i].rb, slots[i].velocity, speed * dt) in Attract(slots, dt, speed).calls
            <==> Turns(slots[i])
  {
    var n := |slots| - 1;
    var prev := Attract(slots[..n], dt, speed);
    var f := AddForce(i, slots[i].rb, Scale(slots[i].velocity, dt));
    var o := Reorient(i, slots[i].rb, slots[i].velocity, speed * dt);
    if n == i {
      AttractFaultsIff(slots[..n], dt, speed);
      assert f !in prev.calls && o !in prev.calls;
      var mine := SlotCalls(n, slots[n], dt, speed);
      assert Attract(slots, dt, speed).calls == prev.calls + mine;
      assert f in mine <==> Pushes(slots[i]);
      assert o in mine <==> Turns(slots[i]);
    } else {
      assert slots[..n][i] == slots[i];
      AttractCallsFor(slots[..n], i, dt, speed);
      var calls := Attract(slots, dt, speed).calls;
      assert forall c :: c in calls ==> c in prev.calls || c.slot == n;
    }
  }

  /** Every call of a pass is one the slot it names asks for: a force of its
      cached vector times `dt` from a pushing slot, a reorientation towards
      its cached vector by `speed * dt` from a turning slot. */
  lemma {:induction false} AttractCallSound<R>(slots: seq<Slot<R>>, dt: real, speed: real, c: PhysicsCall<R>)
    requires c in Attract(slots, dt, speed).calls
    ensures c.slot < |slots|
    ensures c.AddForce? ==> Pushes(slots[c.slot]) && c == AddForce(c.slot, slots[c.slot].rb, Scale(slots[c.slot].velocity, dt))
    ensures c.Reorient? ==> Turns(slots[c.slot]) && c == Reorient(c.slot, slots[c.slot].rb, slots[c.slot].velocity, speed * dt)
  {
    var n := |slots| - 1;
    var prev := Attract(slots[..n], dt, speed);
    if c in prev.calls {
      AttractCallSound(slots[..n], dt, speed, c);
      assert slots[..n][c.slot] == slots[c.slot];
    }
  }
}
