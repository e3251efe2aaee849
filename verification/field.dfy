/** The pull that one body feels from the others when the gravity system
    recalculates (Assets/Scripts/GravitySystem.cs, RecalculateGravity).
    Bodies are identified by a reference of type `Id`; the sum skips empty
    slots and the slot holding the body itself, compared by identity. */
module Field {
  import opened Vectors

  datatype Option<T> = None | Some(value: T)

  /** What the recalculation reads from an occupied slot: the body, the
      position of its transform and the mass of its rigid body. */
  datatype Source<Id> = Source(id: Id, position: Vec3, mass: real)

  /** The change one source makes to the gravity of a body at `at`: the unit
      direction towards the source times mass * multiplier over one plus the
      squared distance. A massless source changes nothing, and a source at
      the body's own position gives a finite change. */
  function Contrib<Id>(normalized: Vec3 -> Vec3, massMultiplier: real, at: Vec3, s: Source<Id>): (r: Vec3)
    ensures s.mass == 0.0 || massMultiplier == 0.0 ==> r == Zero
    ensures s.position == at ==> r == Scale(normalized(Zero), s.mass * massMultiplier)
  {
    var dir := Sub(s.position, at);
    Scale(normalized(dir), s.mass * massMultiplier / (1.0 + SqrMag(dir)))
  }

  /** True when slot `s` contributes to the gravity of `self`. */
  predicate Counts<Id(==)>(s: Option<Source<Id>>, self: Id) {
    s.Some? && s.value.id != self
  }

  /** The gravity vector of body `self` at `at`: the contributions of every
      counted slot, added to a zero vector in index order. With a zero
      multiplier every body gets a zero vector. */
  function Pull<Id(==)>(sources: seq<Option<Source<Id>>>, self: Id, at: Vec3,
                        normalized: Vec3 -> Vec3, massMultiplier: real): (r: Vec3)
    decreases |sources|
    ensures massMultiplier == 0.0 ==> r == Zero
  {
    if sources == [] then Zero
    else
      var acc := Pull(sources[..|sources| - 1], self, at, normalized, massMultiplier);
      var last := sources[|sources| - 1];
      if Counts(last, self) then AddZero(acc); Add(acc, Contrib(normalized, massMultiplier, at, last.value)) else acc
  }

  /** One more slot: the sum over the first j + 1 slots is the sum over the
      first j, plus slot j's contribution when it counts. */
  lemma PullStep<Id>(sources: seq<Option<Source<Id>>>, j: nat, self: Id, at: Vec3,
                     normalized: Vec3 -> Vec3, massMultiplier: real)
    requires j < |sources|
    ensures Pull(sources[..j + 1], self, at, normalized, massMultiplier)
         == if Counts(sources[j], self)
            then Add(Pull(sources[..j], self, at, normalized, massMultiplier),
                     Contrib(normalized, massMultiplier, at, sources[j].value))
            else Pull(sources[..j], self, at, normalized, massMultiplier)
  {
    assert sources[..j + 1][..j] == sources[..j];
  }

  /** Reference definition by position: the same sum, skipping slot `i`
      instead of every slot that holds the same body. */
  function PullExcept<Id>(sources: seq<Option<Source<Id>>>, i: int, at: Vec3,
                          normalized: Vec3 -> Vec3, massMultiplier: real): Vec3
    decreases |sources|
  {
    if sources == [] then Zero
    else
      var n := |sources| - 1;
      var acc := PullExcept(sources[..n], i, at, normalized, massMultiplier);
      if sources[n].Some? && n != i then Add(acc, Contrib(normalized, massMultiplier, at, sources[n].value)) else acc
  }

  /** No two occupied slots hold the same body. */
  predicate DistinctIds<Id(==)>(sources: seq<Option<Source<Id>>>) {
    forall i, j :: 0 <= i < j < |sources| && sources[i].Some? && sources[j].Some? ==>
      sources[i].value.id != sources[j].value.id
  }

  /** A body with nothing else around it (every slot empty or itself) feels
      no gravity. */
  lemma {:induction false} PullAlone<Id>(sources: seq<Option<Source<Id>>>, self: Id, at: Vec3,
                                         normalized: Vec3 -> Vec3, massMultiplier: real)
    requires forall j :: 0 <= j < |sources| ==> !Counts(sources[j], self)
    ensures Pull(sources, self, at, normalized, massMultiplier) == Zero
  {
    if sources != [] {
      PullAlone(sources[..|sources| - 1], self, at, normalized, massMultiplier);
    }
  }

  /** When the registry holds distinct bodies, skipping by identity is the
      same as skipping the body's own index: over any prefix, the gravity of
      the body in slot `i` is the sum over every other occupied slot. */
  lemma {:induction false} PullIsPullExcept<Id>(sources: seq<Option<Source<Id>>>, i: int, at: Vec3,
                                                normalized: Vec3 -> Vec3, massMultiplier: real, k: nat)
    requires DistinctIds(sources)
    requires 0 <= i < |sources| && sources[i].Some?
    requires k <= |sources|
    ensures Pull(sources[..k], sources[i].value.id, at, normalized, massMultiplier)
         == PullExcept(sources[..k], i, at, normalized, massMultiplier)
  {
    if k > 0 {
      assert sources[..k][..k - 1] == sources[..k - 1];
      PullIsPullExcept(sources, i, at, normalized, massMultiplier, k - 1);
    }
  }

  /** A contribution depends only on the separation and the source's mass. */
  lemma ContribBySeparation<Id>(normalized: Vec3 -> Vec3, massMultiplier: real,
                                at: Vec3, s: Source<Id>, at': Vec3, s': Source<Id>)
    requires Sub(s.position, at) == Sub(s'.position, at') && s.mass == s'.mass
    ensures Contrib(normalized, massMultiplier, at, s) == Contrib(normalized, massMultiplier, at', s')
  {
  }

  /** Two bodies alone: each one's gravity is the single contribution of the
      other, pointing along the separation and scaled by the other's mass. */
  lemma PairPull<Id>(a: Source<Id>, b: Source<Id>, normalized: Vec3 -> Vec3, massMultiplier: real)
    requires a.id != b.id
    ensures Pull([Some(a), Some(b)], a.id, a.position, normalized, massMultiplier)
         == Contrib(normalized, massMultiplier, a.position, b)
    ensures Pull([Some(a), Some(b)], b.id, b.position, normalized, massMultiplier)
         == Contrib(normalized, massMultiplier, b.position, a)
  {
    var s := [Some(a), Some(b)];
    assert s[..1] == [Some(a)] && s[..1][..0] == [];
    assert Pull(s[..1], a.id, a.position, normalized, massMultiplier) == Zero;
    var ca := Contrib(normalized, massMultiplier, b.position, a);
    var cb := Contrib(normalized, massMultiplier, a.position, b);
    assert Pull(s[..1], b.id, b.position, normalized, massMultiplier) == Add(Zero, ca);
    AddZero(ca);
    AddZero(cb);
  }

  lemma AddZero(v: Vec3)
    ensures Add(Zero, v) == v
  {
  }

  /** Swapping the two masses and negating the separation swaps the two
      results exactly. */
  lemma PairSwap<Id>(a: Source<Id>, b: Source<Id>, a': Source<Id>, b': Source<Id>,
                     normalized: Vec3 -> Vec3, massMultiplier: real)
    requires a.id != b.id && a'.id != b'.id
    requires a'.mass == b.mass && b'.mass == a.mass
    requires Sub(b'.position, a'.position) == Neg(Sub(b.position, a.position))
    ensures Pull([Some(a'), Some(b')], a'.id, a'.position, normalized, massMultiplier)
         == Pull([Some(a), Some(b)], b.id, b.position, normalized, massMultiplier)
    ensures Pull([Some(a'), Some(b')], b'.id, b'.position, normalized, massMultiplier)
         == Pull([Some(a), Some(b)], a.id, a.position, normalized, massMultiplier)
  {
    PairPull(a, b, normalized, massMultiplier);
    PairPull(a', b', normalized, massMultiplier);
    SubSwap(a.position, b.position);
    SubSwap(a'.position, b'.position);
    assert Neg(Neg(Sub(b.position, a.position))) == Sub(b.position, a.position);
    ContribBySeparation(normalized, massMultiplier, a'.position, b', b.position, a);
    ContribBySeparation(normalized, massMultiplier, b'.position, a', a.position, b);
  }

  /** Two unit masses ten units apart with the default multiplier of 1000:
      each feels 1000/101 towards the other. */
  lemma PairExample<Id>(a: Id, b: Id, normalized: Vec3 -> Vec3)
    requires a != b
    requires normalized(Vec3(10.0, 0.0, 0.0)) == Vec3(1.0, 0.0, 0.0)
    requires normalized(Vec3(-10.0, 0.0, 0.0)) == Vec3(-1.0, 0.0, 0.0)
    ensures Pull([Some(Source(a, Zero, 1.0)), Some(Source(b, Vec3(10.0, 0.0, 0.0), 1.0))],
                 a, Zero, normalized, 1000.0) == Vec3(1000.0 / 101.0, 0.0, 0.0)
    ensures Pull([Some(Source(a, Zero, 1.0)), Some(Source(b, Vec3(10.0, 0.0, 0.0), 1.0))],
                 b, Vec3(10.0, 0.0, 0.0), normalized, 1000.0) == Vec3(-1000.0 / 101.0, 0.0, 0.0)
  {
    var sa, sb := Source(a, Zero, 1.0), Source(b, Vec3(10.0, 0.0, 0.0), 1.0);
    PairPull(sa, sb, normalized, 1000.0);
    assert Sub(sb.position, sa.position) == Vec3(10.0, 0.0, 0.0);
    assert Sub(sa.position, sb.position) == Vec3(-10.0, 0.0, 0.0);
    assert SqrMag(Vec3(10.0, 0.0, 0.0)) == 100.0;
    assert SqrMag(Vec3(-10.0, 0.0, 0.0)) == 100.0;
  }
}
