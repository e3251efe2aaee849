# Gravity system of gravity-test, modelled in Dafny

The repository is a small Unity project in which bodies attract one another.
Its core is the `GravitySystem` component. It keeps two parallel tables, the
`Gravity` components found in the scene (`masses`) and the rigid body found
for each (`rbs`). It runs a two-rate loop. Every frame it applies each body's
cached gravity vector as a force, and turns bodies that orient themselves
towards "down". Only when more than `GravityUpdateFrequency` seconds have
passed does it recalculate the cached vectors, by an O(n²) pass over all
pairs.

The model has five modules:

- `Vectors` (vectors.dfy): `Vec3` over exact reals, with the few operations
  the system uses. `ApproxZero` is Unity's `v == Vector3.zero`, which is
  true when the squared magnitude is below 1e-5 squared.
- `Field` (field.dfy): the pure sum behind a recalculation. `Contrib` is the
  change one source makes, `normalized(dir) * mass * MassMultiplier / (1 + |dir|²)`.
  `Pull` adds these in index order, skipping empty slots and the slot that
  holds the body itself. The self test compares references, as the code
  does at line 120. `PullExcept` is a reference definition that skips by
  index instead.
- `Attraction` (attraction.dfy): the calls one pass of `AttractMasses`
  makes into the physics engine. `Attract` is a pure function of the slots,
  and the lemmas about it give its meaning.
- `Schedule` (schedule.dfy): the timer test of `Update` and the recalculation
  times over a run of frames.
- `Components` and `GravityEngine` (components.dfy, gravity_system.dfy): the
  imperative model. `Gravity` and `Rigidbody` are classes. `GravitySystem` is
  a class whose tables are `array<Gravity?>` and `array<Rigidbody?>`, updated
  in place. Each method is proved against the pure functions above.

The model keeps the code's behaviour as written:

- `Unregister` empties every slot of both tables, whatever body it is given.
- `Register` does nothing.
- The recalculation is due only when `lastGravityUpdateTime < now - GravityUpdateFrequency`
  holds. The comparison is strict: a frame exactly `GravityUpdateFrequency`
  after the last recalculation does not recalculate.
- A body with `useGravity == false` gets a zero vector but still acts as a
  source for the others.
- `AttractMasses` reads `masses[i].gravityVelocity` before it tests
  `masses[i]` for null. An empty slot therefore throws, and the pass ends
  there. The model returns this as `faulted == true`, keeping the calls
  already made. So after any `Unregister`, or after `Start` has emptied a
  slot, every frame faults at the first empty slot.

Calls into the physics engine are returned as a sequence of `PhysicsCall`
values, in the order they are made. `Rigidbody.AddForce(force)` becomes
`AddForce`. The rotation written through `Quaternion.FromToRotation` and
`Quaternion.Slerp` becomes `Reorient`, which records its inputs: the gravity
vector and the interpolation fraction `RotationAdjustmentSpeed * dt`. The
clock (`Time.time`, `Time.deltaTime`) and Unity's `Vector3.normalized` are
parameters.

## Model

| member | source | states |
|---|---|---|
| `Components.Gravity.constructor` | Assets/Scripts/Gravity.cs:5-11 | a new component uses gravity, does not orient itself, has threshold 0 and a zero cached vector |
| `GravityEngine.GravitySystem.constructor` | Assets/Scripts/GravitySystem.cs:7-19 | the tables have one slot per component found, in order, with no rigid bodies yet; defaults 0.5, 1 and 1000; timer at 0 |
| `GravityEngine.GravitySystem.Start` | Assets/Scripts/GravitySystem.cs:28-47 | afterwards every occupied slot has a rigid body; a slot whose body has no rigid body is emptied; an occupied slot gets its body's rigid body; empty slots and their rigid bodies are untouched |
| `GravityEngine.GravitySystem.Register` | Assets/Scripts/GravitySystem.cs:49-52 | registering changes no state at all |
| `GravityEngine.GravitySystem.Unregister` | Assets/Scripts/GravitySystem.cs:54-61 | whatever body is given, every slot of both tables is null afterwards, and the lengths stay the same |
| `GravityEngine.GravitySystem.Update` | Assets/Scripts/GravitySystem.cs:63-72 | the timer moves to `now` exactly when it was due (strict test) and the cached vectors are then recalculated; otherwise every cached vector is unchanged; positions, settings and sources are never changed; the calls made are those of one pass over the resulting slots |
| `GravityEngine.GravitySystem.RecalculateGravity` | Assets/Scripts/GravitySystem.cs:99-131 | only cached vectors change; each occupied slot's vector becomes zero when its body does not use gravity, otherwise the index-ordered pull of every occupied slot holding another body, bodies without gravity included; with distinct bodies that is the sum over every occupied slot other than its own index |
| `GravityEngine.GravitySystem.GravityOn` | Assets/Scripts/GravitySystem.cs:114-128 | the inner loop, computing each change by `Contrib`, ends with exactly `Pull` over the current slots: the index-ordered sum over every occupied slot not holding the same body |
| `GravityEngine.GravitySystem.AttractMasses` | Assets/Scripts/GravitySystem.cs:74-97 | the calls made and the fault flag are exactly those of `Attract` over the current slots |
| `Vectors.ApproxZero` | Assets/Scripts/GravitySystem.cs:79 | Unity's `velocity == Vector3.zero`: the squared magnitude is below the squared tolerance 1e-5; an exactly zero vector always compares equal |
| `Vectors.ApproxZeroSmall` | Assets/Scripts/GravitySystem.cs:79 | a vector that compares equal to zero is within the tolerance 1e-5 in every component |
| `Field.Contrib` | Assets/Scripts/GravitySystem.cs:125-126 | the change one source makes: the normalized direction towards it times `mass * MassMultiplier` over one plus the squared distance; a massless source or a zero multiplier changes nothing, and a source at the body's own position gives a finite change |
| `Field.Pull` | Assets/Scripts/GravitySystem.cs:114-128 | the inner sum: contributions added to a zero vector in index order, skipping empty slots and every slot holding the same body (by reference); with a zero multiplier the result is zero |
| `Attraction.Pushes` | Assets/Scripts/GravitySystem.cs:79-84 | a held slot gets a force exactly when its cached vector does not compare equal to zero; an exactly zero vector never pushes |
| `Attraction.Turns` | Assets/Scripts/GravitySystem.cs:85-93 | a pushing slot is also reoriented when it orients itself and its squared magnitude is above its threshold; an exactly zero vector never turns |
| `Attraction.TurnsByThreshold` | Assets/Scripts/GravitySystem.cs:79-93 | for a self-orienting slot, a threshold below the tolerance (such as the default 0) makes it turn exactly when it pushes; at or above the tolerance the threshold alone decides |
| `Schedule.Due` | Assets/Scripts/GravitySystem.cs:65 | the strict timer test `last < now - GravityUpdateFrequency`: with a non-negative frequency only a later frame can be due, and a frame exactly one interval later is not |
| `Schedule.Next` | Assets/Scripts/GravitySystem.cs:65-69 | the timer after a frame is the frame's time when it was due and the old time otherwise; with a non-negative frequency it never goes back, and a second frame at the same time is not due |
| `GravityEngine.GravitySystem.RecalculateTwice` | Assets/Scripts/GravitySystem.cs:99-131 | two recalculations in a row leave every cached vector as one recalculation does |
| `Field.PullAlone` | Assets/Scripts/GravitySystem.cs:115-129 | a body with no other occupied slot around it gets a zero vector |
| `Field.PullIsPullExcept` | Assets/Scripts/GravitySystem.cs:117-124 | when no body occupies two slots, skipping by identity equals skipping the body's own index |
| `Field.ContribBySeparation` | Assets/Scripts/GravitySystem.cs:125-126 | a contribution depends only on the separation and the source's mass |
| `Field.PairPull` | Assets/Scripts/GravitySystem.cs:117-129 | with two bodies, each one's vector is the single contribution of the other |
| `Field.PairSwap` | Assets/Scripts/GravitySystem.cs:125-126 | swapping the two masses and negating the separation swaps the two vectors exactly |
| `Field.PairExample` | Assets/Scripts/GravitySystem.cs:125-126 | unit masses at (0,0,0) and (10,0,0) with multiplier 1000 get (1000/101, 0, 0) and (-1000/101, 0, 0) |
| `Attraction.SlotCalls` | Assets/Scripts/GravitySystem.cs:83-95 | every call made for a slot names that slot and its rigid body |
| `Attraction.Attract` | Assets/Scripts/GravitySystem.cs:76-96 | every call of a pass names a slot of the table |
| `Attraction.AttractFaultsIff` | Assets/Scripts/GravitySystem.cs:76-79 | a pass faults exactly when some slot is empty |
| `Attraction.AttractStopsAt` | Assets/Scripts/GravitySystem.cs:76-79 | an empty slot ends the pass; the calls are those of the slots before it, whatever follows |
| `Attraction.AttractCallsFor` | Assets/Scripts/GravitySystem.cs:78-95 | up to the first empty slot, a slot gets the force `gravityVelocity * dt` exactly when its vector is not zero, and a reorientation by `RotationAdjustmentSpeed * dt` exactly when it also orients itself and its squared magnitude is above its threshold |
| `Attraction.AttractCallSound` | Assets/Scripts/GravitySystem.cs:84-93 | every force and every reorientation of a pass is one that its slot asks for, with the values above |
| `Schedule.RecalculationsSpaced` | Assets/Scripts/GravitySystem.cs:65-69 | over any run of frames, each an `Update` that moves the timer by `Next`, recalculations are more than `GravityUpdateFrequency` apart |
| `Schedule.RecalculationsNoneIff` | Assets/Scripts/GravitySystem.cs:65-71 | a run of frames recalculates at all exactly when one frame comes more than the frequency after the last recalculation, so frames inside one interval all apply the same cached vectors |

## Left out

- Assets/Scripts/PlayerController.cs is not part of this model. It is input handling and `Rigidbody.MovePosition` glue with no logic to state.
- The static `Instance` singleton and the exception `Awake` throws when it is already set (GravitySystem.cs:5, 21-25). This is process-wide lifecycle plumbing.
- `Gravity.OnDestroy` (Gravity.cs:13-16) only calls `Unregister`, which is modelled.
- Floating point: positions, masses, times and vectors are exact reals, so rounding and the order-dependence of float sums are not captured. The sum is still taken in index order.
- `Vector3.normalized`, `Quaternion.FromToRotation` and `Quaternion.Slerp` are not computed. The first is a parameter, and the rotation is recorded as the inputs of a `Reorient` call.
- The rigid-body settings `Start` writes (`rb.useGravity = false`, `rb.constraints`, GravitySystem.cs:43-44) and the `Debug.Log` calls (lines 40, 89).
- Unity's "destroyed object compares equal to null" behaviour. A slot is empty only when the code has set it to null.
- `GetComponent<Rigidbody>()` is modelled as a constant field `rigidbody` of each `Gravity`.
- GravityEngine.GravitySystem.RecalculateGravity: requires `Paired()`, that every occupied slot has its rigid body. Without it, line 126 would throw. Unity runs `Start` before the first `Update`, and `Start` establishes `Paired()`; nothing else changes the tables except `Unregister`, which keeps it.
- GravityEngine.GravitySystem.Update and GravityEngine.GravitySystem.AttractMasses: require `Paired()` for the same reason; line 84 would throw on an occupied slot without a rigid body.
