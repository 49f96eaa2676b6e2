/** The asteroid spawner. On the frame its repeating timer reports "just finished" it
    spawns one asteroid at a random point of the x/z plane, with a random planar
    velocity and acceleration and fixed health, damage and collider radius.

    The random number generator is replaced by its draws: every `gen_range(lo..hi)`
    call is a unit sample `u` in `[0, 1)` mapped onto the range by `GenRange`, and the
    length that `normalize_or_zero` divides by is passed in with the draw. */
module Asteroids {
  import opened Vectors
  import opened Entities

  const VELOCITY_SCALAR: real := 5.0
  const ACCELERATION_SCALAR: real := 1.0
  const SPAWN_RANGE_X_START: real := -25.0
  const SPAWN_RANGE_X_END: real := 25.0
  const SPAWN_RANGE_Z_START: real := 0.0
  const SPAWN_RANGE_Z_END: real := 25.0
  const RADIUS: real := 2.5
  const HEALTH: real := 100.0
  const COLLISION_DAMAGE: real := 35.0

  /** A sample of the half-open range `lo..hi` from the unit sample `u`. */
  function GenRange(lo: real, hi: real, u: real): real
    requires lo < hi
  {
    lo + Mul(u, hi - lo)
  }

  /** Every unit sample lands in `[lo, hi)`... */
  lemma GenRangeBounds(lo: real, hi: real, u: real)
    requires lo < hi && 0.0 <= u < 1.0
    ensures lo <= GenRange(lo, hi, u) < hi
  {
    MulPos(1.0 - u, hi - lo);
    assert Mul(1.0 - u, hi - lo) == (hi - lo) - Mul(u, hi - lo);
    if u > 0.0 {
      MulPos(u, hi - lo);
    }
  }

  /** ...and every point of `[lo, hi)` is reached by some unit sample. */
  lemma GenRangeCovers(lo: real, hi: real, x: real) returns (u: real)
    requires lo <= x < hi
    ensures 0.0 <= u < 1.0 && GenRange(lo, hi, u) == x
  {
    u := (x - lo) / (hi - lo);
    DivFacts(x - lo, hi - lo);
  }

  /** The draws behind one random direction: two unit samples for the x and z
      components in `-1..1`, and the Euclidean length of the vector they form. */
  datatype DirectionDraw = DirectionDraw(ux: real, uz: real, length: real)

  function RawDirection(d: DirectionDraw): Vec3 {
    Vec3(GenRange(-1.0, 1.0, d.ux), 0.0, GenRange(-1.0, 1.0, d.uz))
  }

  predicate ValidDirection(d: DirectionDraw) {
    && 0.0 <= d.ux < 1.0 && 0.0 <= d.uz < 1.0
    && d.length >= 0.0 && Sq(d.length) == NormSq(RawDirection(d))
  }

  /** `normalize_or_zero`, given the vector's length: the zero vector stays zero
      instead of failing. */
  function NormalizeOrZero(v: Vec3, length: real): Vec3 {
    if length > 0.0 then Scale(v, 1.0 / length) else Zero
  }

  /** With the true length, a non-zero vector normalizes to unit length. (The zero
      vector normalizes to zero by the definition itself.) */
  lemma NormalizeNonZero(v: Vec3, length: real)
    requires length >= 0.0 && Sq(length) == NormSq(v) && v != Zero
    ensures NormSq(NormalizeOrZero(v, length)) == 1.0
  {
    NormSqZero(v);
    SqPos(length);
    UnitAfterDivision(v, length);
  }

  /** A vector in the x/z plane stays in it. */
  lemma NormalizeKeepsPlane(v: Vec3, length: real)
    requires v.y == 0.0
    ensures NormalizeOrZero(v, length).y == 0.0
  {
  }

  lemma UnitAfterDivision(v: Vec3, length: real)
    requires length > 0.0 && Sq(length) == NormSq(v)
    ensures NormSq(Scale(v, 1.0 / length)) == 1.0
  {
    var k := 1.0 / length;
    calc {
      NormSq(Scale(v, k));
      { NormSqScale(v, k); }
      Mul(Sq(k), NormSq(v));
      Mul(Sq(k), Sq(length));
      { SqInverse(length); }
      1.0;
    }
  }

  function RandomUnitVector(d: DirectionDraw): Vec3 {
    NormalizeOrZero(RawDirection(d), d.length)
  }

  /** The draws behind one spawn, in the order the generator is called. */
  datatype SpawnDraws = SpawnDraws(ux: real, uz: real, velocity: DirectionDraw, acceleration: DirectionDraw)

  predicate ValidDraws(d: SpawnDraws) {
    && 0.0 <= d.ux < 1.0 && 0.0 <= d.uz < 1.0
    && ValidDirection(d.velocity) && ValidDirection(d.acceleration)
  }

  /** One frame of the spawner, after the timer has been ticked. */
  function SpawnAsteroid(justFinished: bool, d: SpawnDraws): (r: Option<Bundle>)
    ensures r.Some? <==> justFinished
    ensures r.Some? ==> r.value.kind == Asteroid
    ensures r.Some? ==> r.value.health == Some(Health(100.0)) && r.value.damage == Some(35.0)
    ensures r.Some? ==> r.value.radius == 2.5
    ensures r.Some? ==> r.value.translation.y == 0.0 && r.value.velocity.y == 0.0 && r.value.acceleration.y == 0.0
  {
    if !justFinished then None
    else
      var translation := Vec3(
        GenRange(SPAWN_RANGE_X_START, SPAWN_RANGE_X_END, d.ux),
        0.0,
        GenRange(SPAWN_RANGE_Z_START, SPAWN_RANGE_Z_END, d.uz));
      var velocity := Scale(RandomUnitVector(d.velocity), VELOCITY_SCALAR);
      var acceleration := Scale(RandomUnitVector(d.acceleration), ACCELERATION_SCALAR);
      Some(Bundle(Asteroid, translation, velocity, acceleration, RADIUS, Some(Health(HEALTH)), Some(COLLISION_DAMAGE)))
  }

  /** A spawned asteroid starts in `[-25, 25) x {0} x [0, 25)`. */
  lemma SpawnWithinRange(d: SpawnDraws)
    requires ValidDraws(d)
    ensures var t := SpawnAsteroid(true, d).value.translation;
      -25.0 <= t.x < 25.0 && t.y == 0.0 && 0.0 <= t.z < 25.0
  {
    GenRangeBounds(SPAWN_RANGE_X_START, SPAWN_RANGE_X_END, d.ux);
    GenRangeBounds(SPAWN_RANGE_Z_START, SPAWN_RANGE_Z_END, d.uz);
  }

  /** Every point of that region is a possible spawn point. */
  lemma SpawnRangeCovered(x: real, z: real) returns (d: SpawnDraws)
    requires -25.0 <= x < 25.0 && 0.0 <= z < 25.0
    ensures ValidDraws(d) && SpawnAsteroid(true, d).value.translation == Vec3(x, 0.0, z)
  {
    var ux := GenRangeCovers(SPAWN_RANGE_X_START, SPAWN_RANGE_X_END, x);
    var uz := GenRangeCovers(SPAWN_RANGE_Z_START, SPAWN_RANGE_Z_END, z);
    var still := DirectionDraw(0.5, 0.5, 0.0);
    assert RawDirection(still) == Zero;
    d := SpawnDraws(ux, uz, still, still);
  }

  /** A direction drawn from `dd`, normalized and scaled by a positive `speed`: it is
      zero exactly when the sampled vector was zero, and otherwise it points the way
      the sample does and has length `speed`. */
  lemma DrawnDirection(dd: DirectionDraw, speed: real)
    requires ValidDirection(dd) && speed > 0.0
    ensures var raw, r := RawDirection(dd), Scale(RandomUnitVector(dd), speed);
      && (raw == Zero <==> r == Zero)
      && (raw != Zero ==> NormSq(r) == Sq(speed))
      && (raw != Zero ==> exists k :: k > 0.0 && r == Scale(raw, k))
  {
    var raw := RawDirection(dd);
    if raw != Zero {
      PositiveLength(dd);
      NormalizeNonZero(raw, dd.length);
      ScaleUnit(RandomUnitVector(dd), speed);
      NonZeroLength(Scale(RandomUnitVector(dd), speed), speed);
      SameWay(raw, dd.length, speed);
    }
  }

  /** A non-zero sample has a positive length. */
  lemma PositiveLength(dd: DirectionDraw)
    requires ValidDirection(dd) && RawDirection(dd) != Zero
    ensures dd.length > 0.0
  {
    NormSqZero(RawDirection(dd));
    SqPos(dd.length);
  }

  /** A unit vector scaled by a positive factor has that length... */
  lemma ScaleUnit(u: Vec3, speed: real)
    requires NormSq(u) == 1.0 && speed > 0.0
    ensures NormSq(Scale(u, speed)) == Sq(speed)
  {
    NormSqScale(u, speed);
  }

  /** ...and a vector of positive length is not zero. */
  lemma NonZeroLength(v: Vec3, length: real)
    requires NormSq(v) == Sq(length) && length > 0.0
    ensures v != Zero
  {
    SqPos(length);
    assert v == Zero ==> NormSq(v) == 0.0;
  }

  /** Dividing by a positive length and scaling by a positive speed keeps the direction. */
  lemma SameWay(v: Vec3, length: real, speed: real)
    requires length > 0.0 && speed > 0.0
    ensures exists k :: k > 0.0 && Scale(Scale(v, 1.0 / length), speed) == Scale(v, k)
  {
    MulPos(1.0 / length, speed);
    ScaleScale(v, 1.0 / length, speed);
  }

  /** The spawned velocity follows the first sampled direction with speed 5, and is
      zero exactly when that direction was. */
  lemma SpawnVelocity(d: SpawnDraws)
    requires ValidDirection(d.velocity)
    ensures var a, v := SpawnAsteroid(true, d).value, RawDirection(d.velocity);
      && (v == Zero <==> a.velocity == Zero)
      && (v != Zero ==> NormSq(a.velocity) == 25.0 && exists k :: k > 0.0 && a.velocity == Scale(v, k))
  {
    DrawnDirection(d.velocity, VELOCITY_SCALAR);
  }

  /** The spawned acceleration follows the second sampled direction with magnitude 1,
      and is zero exactly when that direction was. */
  lemma SpawnAcceleration(d: SpawnDraws)
    requires ValidDirection(d.acceleration)
    ensures var a, c := SpawnAsteroid(true, d).value, RawDirection(d.acceleration);
      && (c == Zero <==> a.acceleration == Zero)
      && (c != Zero ==> NormSq(a.acceleration) == 1.0 && exists k :: k > 0.0 && a.acceleration == Scale(c, k))
  {
    DrawnDirection(d.acceleration, ACCELERATION_SCALAR);
  }

  /** The spawner's effect on the store: at most one entity is added and the existing
      ones are untouched; nothing at all happens unless the timer just finished. */
  function SpawnStep(w: World, justFinished: bool, d: SpawnDraws): (r: World)
    ensures !justFinished ==> r == w
    ensures justFinished ==> |r.entities| == |w.entities| + 1
    ensures r.entities[..|w.entities|] == w.entities
    ensures justFinished ==> r.entities[|w.entities|].components == SpawnAsteroid(true, d).value
    ensures justFinished ==> r.entities[|w.entities|].components.kind == Asteroid
    ensures Valid(w) ==> Valid(r)
  {
    SpawnIfAny(w, SpawnAsteroid(justFinished, d))
  }
}
