/** The gravity system (Assets/Scripts/GravitySystem.cs): a table of Gravity
    components with the rigid body found for each, updated in place, and the
    two-rate loop that recalculates every body's gravity vector on a timer
    and applies the cached vectors every frame. */
module GravityEngine {
  import opened Vectors
  import opened Field
  import opened Attraction
  import opened Schedule
  import opened Components

  class GravitySystem {
    var GravityUpdateFrequency: real
    var RotationAdjustmentSpeed: real
    var MassMultiplier: real

    /** Parallel tables: slot i holds a Gravity component (or null) and the
        rigid body found for it (or null). */
    var masses: array<Gravity?>
    var rbs: array<Rigidbody?>

    var lastGravityUpdateTime: real

    /** The two tables have one slot per body. */
    ghost predicate Valid()
      reads this
    {
      masses.Length == rbs.Length
    }

    /** Every occupied slot has its rigid body: what Start establishes. */
    ghost predicate Paired()
      reads this, masses, rbs
    {
      Valid() && forall i :: 0 <= i < masses.Length && masses[i] != null ==> rbs[i] != null
    }

    ghost function Bodies(): set<Gravity>
      reads this, masses
    {
      set g: Gravity | g in masses[..]
    }

    ghost function Rigidbodies(): set<Rigidbody>
      reads this, rbs
    {
      set r: Rigidbody | r in rbs[..]
    }

    /** What RecalculateGravity reads from slot `i`. */
    ghost function SourceAt(i: int): Option<Source<Gravity>>
      requires Paired() && 0 <= i < masses.Length
      reads this, masses, rbs, Bodies(), Rigidbodies()
    {
      if masses[i] == null then None else Some(Source(masses[i], masses[i].position, rbs[i].mass))
    }

    /** What RecalculateGravity reads from every slot, in index order. */
    ghost function Sources(): seq<Option<Source<Gravity>>>
      requires Paired()
      reads this, masses, rbs, Bodies(), Rigidbodies()
    {
      seq(masses.Length, i requires 0 <= i < masses.Length && Paired()
                           reads this, masses, rbs, Bodies(), Rigidbodies() => SourceAt(i))
    }

    /** What AttractMasses reads from slot `i`. */
    ghost function SlotAt(i: int): Slot<Rigidbody>
      requires Paired() && 0 <= i < masses.Length
      reads this, masses, rbs, Bodies()
    {
      if masses[i] == null then Vacant
      else Held(rbs[i] as Rigidbody, masses[i].gravityVelocity, masses[i].autoOrientDownwards, masses[i].autoOrientSqrMagThreshold)
    }

    /** What AttractMasses reads from every slot, in index order. */
    ghost function Slots(): seq<Slot<Rigidbody>>
      requires Paired()
      reads this, masses, rbs, Bodies()
    {
      seq(masses.Length, i requires 0 <= i < masses.Length && Paired()
                           reads this, masses, rbs, Bodies() => SlotAt(i))
    }

    /** The gravity vector a recalculation over `src` gives body `g`. */
    ghost function Target(g: Gravity, src: seq<Option<Source<Gravity>>>, normalized: Vec3 -> Vec3): Vec3
      reads this, g
    {
      if g.useGravity then Pull(src, g, g.position, normalized, MassMultiplier) else Zero
    }

    /** Everything of a body but its cached vector is as it was. */
    twostate predicate SettingsKept(g: Gravity)
      reads g
    {
      g.useGravity == old(g.useGravity) && g.autoOrientDownwards == old(g.autoOrientDownwards)
      && g.autoOrientSqrMagThreshold == old(g.autoOrientSqrMagThreshold) && g.position == old(g.position)
    }

    /** Awake: take the Gravity components found in the scene, with no rigid
        bodies yet, and the default settings. */
    constructor (found: seq<Gravity>)
      ensures Valid() && fresh(masses) && fresh(rbs)
      ensures masses.Length == |found| && forall i :: 0 <= i < |found| ==> masses[i] == found[i] && rbs[i] == null
      ensures GravityUpdateFrequency == 0.5 && RotationAdjustmentSpeed == 1.0 && MassMultiplier == 1000.0
      ensures lastGravityUpdateTime == 0.0
    {
      GravityUpdateFrequency := 0.5;
      RotationAdjustmentSpeed := 1.0;
      MassMultiplier := 1000.0;
      masses := new Gravity?[|found|](i requires 0 <= i < |found| => found[i]);
      rbs := new Rigidbody?[|found|](_ => null);
      lastGravityUpdateTime := 0.0;
    }

    /** Pair each occupied slot with its rigid body; a slot whose body has
        none is emptied. */
    method Start()
      requires Valid()
      modifies masses, rbs
      ensures Paired()
      ensures forall i :: 0 <= i < masses.Length ==>
        masses[i] == (if old(masses[i]) != null && old(masses[i]).rigidbody == null then null else old(masses[i]))
      ensures forall i :: 0 <= i < masses.Length ==>
        rbs[i] == (if old(masses[i]) != null && old(masses[i]).rigidbody != null then old(masses[i]).rigidbody else old(rbs[i]))
    {
      for i := 0 to masses.Length
        invariant forall k :: 0 <= k < i ==>
          masses[k] == (if old(masses[k]) != null && old(masses[k]).rigidbody == null then null else old(masses[k]))
        invariant forall k :: 0 <= k < i ==>
          rbs[k] == (if old(masses[k]) != null && old(masses[k]).rigidbody != null then old(masses[k]).rigidbody else old(rbs[k]))
        invariant forall k :: i <= k < masses.Length ==> masses[k] == old(masses[k]) && rbs[k] == old(rbs[k])
      {
        if masses[i] == null {
          continue;
        }
        var rb := masses[i].rigidbody;
        if rb == null {
          masses[i] := null;
          continue;
        }
        rbs[i] := rb;
      }
    }

    /** Registering a body does nothing. */
    method Register(mass: Gravity?)
      ensures unchanged(this, masses, rbs)
    {
    }

    /** Unregistering any body, whichever it is, empties every slot of both
        tables. */
    method Unregister(mass: Gravity?)
      requires Valid()
      modifies masses, rbs
      ensures Paired()
      ensures forall i :: 0 <= i < masses.Length ==> masses[i] == null && rbs[i] == null
    {
      for i := 0 to masses.Length
        invariant forall k :: 0 <= k < i ==> masses[k] == null && rbs[k] == null
      {
        masses[i] := null;
        rbs[i] := null;
      }
    }

    /** Recalculate the cached gravity vector of every occupied slot: zero for
        a body that does not use gravity, otherwise the pull of every other
        occupied slot. Nothing but the cached vectors changes. */
    method RecalculateGravity(normalized: Vec3 -> Vec3)
      requires Paired()
      modifies Bodies()
      ensures Sources() == old(Sources())
      ensures forall g :: g in Bodies() ==> SettingsKept(g)
      ensures forall i :: 0 <= i < masses.Length && masses[i] != null ==>
        masses[i].gravityVelocity == Target(masses[i], old(Sources()), normalized)
      ensures DistinctIds(old(Sources())) ==>
        forall i :: 0 <= i < masses.Length && masses[i] != null && masses[i].useGravity ==>
          masses[i].gravityVelocity == PullExcept(old(Sources()), i, masses[i].position, normalized, MassMultiplier)
    {
      ghost var src := Sources();
      ghost var bodies := Bodies();
      for i := 0 to masses.Length
        invariant forall g :: g in bodies ==> SettingsKept(g)
        invariant forall k :: 0 <= k < masses.Length ==>
          src[k] == if masses[k] == null then None else Some(Source(masses[k], masses[k].position, rbs[k].mass))
        invariant forall k :: 0 <= k < i && masses[k] != null ==> masses[k].gravityVelocity == Target(masses[k], src, normalized)
      {
        if masses[i] == null {
          continue;
        }
        var thisMass: Gravity := masses[i];
        if !thisMass.useGravity {
          thisMass.gravityVelocity := Zero;
          continue;
        }
        assert Sources() == src;
        var gravity := GravityOn(thisMass, thisMass.position, normalized);
        assert Sources() == src;
        assert gravity == Target(thisMass, src, normalized);
        thisMass.gravityVelocity := gravity;
      }
      assert Bodies() == bodies;
      assert Sources() == src;
      forall i | 0 <= i < masses.Length && masses[i] != null && masses[i].useGravity && DistinctIds(src)
        ensures masses[i].gravityVelocity == PullExcept(src, i, masses[i].position, normalized, MassMultiplier)
      {
        PullIsPullExcept(src, i, masses[i].position, normalized, MassMultiplier, |src|);
        assert src[..|src|] == src;
      }
    }

    /** The pull on body `thisMass` at `pos` of every occupied slot other
        than its own, summed in index order. */
    method GravityOn(thisMass: Gravity, pos: Vec3, normalized: Vec3 -> Vec3) returns (gravity: Vec3)
      requires Paired()
      ensures gravity == Pull(Sources(), thisMass, pos, normalized, MassMultiplier)
    {
      ghost var src := Sources();
      assert |src| == masses.Length;
      gravity := Zero;
      for j := 0 to masses.Length
        invariant gravity == Pull(src[..j], thisMass, pos, normalized, MassMultiplier)
      {
        PullStep(src, j, thisMass, pos, normalized, MassMultiplier);
        var otherMass := masses[j];
        if otherMass == null || otherMass == thisMass {
          continue;
        }
        var other: Gravity := otherMass;
        assert src[j] == Some(Source(other, other.position, rbs[j].mass));
        var change := Contrib(normalized, MassMultiplier, pos, Source(other, other.position, rbs[j].mass));
        gravity := Add(gravity, change);
      }
      assert src[..masses.Length] == src;
      assert Sources() == src;
    }

    /** Apply the cached vectors: for each slot in order, a force of the
        cached vector times `dt` unless it compares equal to zero, and, for a
        body that orients itself with a squared magnitude above its
        threshold, a reorientation by RotationAdjustmentSpeed * dt. The
        cached vector is read before the slot is tested for null, so an
        empty slot faults and ends the pass. */
    method AttractMasses(dt: real) returns (calls: seq<PhysicsCall<Rigidbody>>, faulted: bool)
      requires Paired()
      ensures Outcome(calls, faulted) == Attract(Slots(), dt, RotationAdjustmentSpeed)
    {
      ghost var slots := Slots();
      calls, faulted := [], false;
      for i := 0 to masses.Length
        invariant Attract(slots[..i], dt, RotationAdjustmentSpeed) == Outcome(calls, false)
      {
        assert slots[..i + 1][..i] == slots[..i];
        if masses[i] == null {
          // masses[i].gravityVelocity throws before the null test is reached
          AttractStopsAt(slots, i, dt, RotationAdjustmentSpeed);
          faulted := true;
          return;
        }
        var velocity := masses[i].gravityVelocity;
        if ApproxZero(velocity) {
          continue;
        }
        var rb: Rigidbody := rbs[i];
        calls := calls + [AddForce(i, rb, Scale(velocity, dt))];
        if masses[i].autoOrientDownwards {
          if SqrMag(masses[i].gravityVelocity) > masses[i].autoOrientSqrMagThreshold {
            calls := calls + [Reorient(i, rb, velocity, RotationAdjustmentSpeed * dt)];
          }
        }
      }
      assert slots[..masses.Length] == slots;
    }

    /** One frame at time `now` lasting `dt`: recalculate when the timer is
        due and restart it at `now`, then apply the cached vectors. */
    method Update(now: real, dt: real, normalized: Vec3 -> Vec3) returns (calls: seq<PhysicsCall<Rigidbody>>, faulted: bool)
      requires Paired()
      modifies this`lastGravityUpdateTime, Bodies()
      ensures lastGravityUpdateTime == Next(old(lastGravityUpdateTime), now, GravityUpdateFrequency)
      ensures forall g :: g in Bodies() ==> SettingsKept(g)
      ensures Sources() == old(Sources())
      ensures Due(old(lastGravityUpdateTime), now, GravityUpdateFrequency) ==>
        forall i :: 0 <= i < masses.Length && masses[i] != null ==>
          masses[i].gravityVelocity == Target(masses[i], old(Sources()), normalized)
      ensures !Due(old(lastGravityUpdateTime), now, GravityUpdateFrequency) ==>
        forall g :: g in Bodies() ==> g.gravityVelocity == old(g.gravityVelocity)
      ensures Outcome(calls, faulted) == Attract(Slots(), dt, RotationAdjustmentSpeed)
    {
      if Due(lastGravityUpdateTime, now, GravityUpdateFrequency) {
        RecalculateGravity(normalized);
        lastGravityUpdateTime := now;
      }
      calls, faulted := AttractMasses(dt);
    }

    /** With nothing moved in between, a second recalculation leaves every
        cached vector as the first one left it. */
    method RecalculateTwice(normalized: Vec3 -> Vec3)
      requires Paired()
      modifies Bodies()
      ensures forall i :: 0 <= i < masses.Length && masses[i] != null ==>
        masses[i].gravityVelocity == Target(masses[i], old(Sources()), normalized)
    {
      RecalculateGravity(normalized);
      RecalculateGravity(normalized);
    }
  }
}
