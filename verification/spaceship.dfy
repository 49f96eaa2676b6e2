/** The player's ship: its spawn bundle, the mapping from held keys to turn, roll and
    thrust, and the weapon that fires a missile on every frame Space is held.

    The orientation quaternion is not modelled. Turn and roll are returned as the
    angles the system would rotate by, and `forward` stands for the ship's forward
    direction after those rotations, which is what the velocity is built from. */
module Spaceship {
  import opened Vectors
  import opened Entities

  const STARTING_TRANSLATION: Vec3 := Vec3(0.0, 0.0, -20.0)
  const SPACESHIP_SPEED: real := 25.0
  const SPACESHIP_ROTATION_SPEED: real := 2.5
  const SPACESHIP_ROLL_SPEED: real := 2.5
  const SPACESHIP_RADIUS: real := 5.0

  const MISSILE_RADIUS: real := 1.0
  const MISSILE_SPEED: real := 50.0
  const MISSILE_FORWARD_SPAWN_SCALAR: real := 7.5

  /** Which of the keys the ship systems read are held down this frame. */
  datatype Keys = Keys(
    keyD: bool, keyA: bool,
    keyS: bool, keyW: bool,
    shiftLeft: bool, controlLeft: bool,
    space: bool)

  /** The intents of one frame: yaw about the world y axis, roll about the ship's own
      z axis, and the ship's new velocity. */
  datatype Controls = Controls(rotation: real, roll: real, velocity: Vec3)

  /** A pair of opposing keys where the first one wins when both are held. */
  function Axis(first: bool, second: bool, amount: real): real {
    if first then -amount else if second then amount else 0.0
  }

  function Rotation(keys: Keys, dt: real): real {
    Axis(keys.keyD, keys.keyA, SPACESHIP_ROTATION_SPEED * dt)
  }

  function Movement(keys: Keys): real {
    Axis(keys.keyS, keys.keyW, SPACESHIP_SPEED)
  }

  function Roll(keys: Keys, dt: real): real {
    Axis(keys.shiftLeft, keys.controlLeft, SPACESHIP_ROLL_SPEED * dt)
  }

  /** The spawn bundle of the ship: at rest at its starting point, with a collider but
      no `Health` or `CollisionDamage`. */
  function SpawnSpaceship(): (b: Bundle)
    ensures b.kind == Spaceship
    ensures b.translation == Vec3(0.0, 0.0, -20.0)
    ensures b.velocity == Zero && b.acceleration == Zero
    ensures b.radius == 5.0
    ensures b.health.None? && b.damage.None?
  {
    Bundle(Spaceship, STARTING_TRANSLATION, Zero, Zero, SPACESHIP_RADIUS, None, None)
  }

  /** One frame of the movement system. The velocity is overwritten, not accumulated:
      it is `-forward` scaled by the thrust. */
  function MovementControls(keys: Keys, dt: real, forward: Vec3): (c: Controls)
    requires dt >= 0.0
    ensures -SPACESHIP_ROTATION_SPEED * dt <= c.rotation <= SPACESHIP_ROTATION_SPEED * dt
    ensures -SPACESHIP_ROLL_SPEED * dt <= c.roll <= SPACESHIP_ROLL_SPEED * dt
    ensures keys.keyD ==> c.rotation == -SPACESHIP_ROTATION_SPEED * dt
    ensures !keys.keyD && keys.keyA ==> c.rotation == SPACESHIP_ROTATION_SPEED * dt
    ensures !keys.keyD && !keys.keyA ==> c.rotation == 0.0
    ensures keys.shiftLeft ==> c.roll == -SPACESHIP_ROLL_SPEED * dt
    ensures !keys.shiftLeft && keys.controlLeft ==> c.roll == SPACESHIP_ROLL_SPEED * dt
    ensures !keys.shiftLeft && !keys.controlLeft ==> c.roll == 0.0
    ensures keys.keyS ==> c.velocity == Scale(forward, SPACESHIP_SPEED)
    ensures !keys.keyS && keys.keyW ==> c.velocity == Scale(forward, -SPACESHIP_SPEED)
    ensures !keys.keyS && !keys.keyW ==> c.velocity == Zero
  {
    Controls(Rotation(keys, dt), Roll(keys, dt), Scale(Neg(forward), Movement(keys)))
  }

  /** The ship after the movement system: only its velocity changes. */
  function ApplyMovementControls(ship: Bundle, keys: Keys, dt: real, forward: Vec3): (r: Bundle)
    requires dt >= 0.0
    ensures r.(velocity := ship.velocity) == ship
    ensures keys.keyW || keys.keyS ==> NormSq(r.velocity) == Sq(SPACESHIP_SPEED) * NormSq(forward)
    ensures !keys.keyW && !keys.keyS ==> r.velocity == Zero
    ensures keys.keyS ==> r.velocity == Scale(forward, SPACESHIP_SPEED)
    ensures !keys.keyS && keys.keyW ==> r.velocity == Scale(forward, -SPACESHIP_SPEED)
  {
    var c := MovementControls(keys, dt, forward);
    NormSqScale(forward, SPACESHIP_SPEED);
    NormSqScale(forward, -SPACESHIP_SPEED);
    ship.(velocity := c.velocity)
  }

  /** Each pair's first key wins: holding the second key as well changes nothing. */
  lemma KeyPrecedence(keys: Keys, dt: real, forward: Vec3)
    requires dt >= 0.0
    ensures keys.keyD ==>
      MovementControls(keys, dt, forward).rotation == MovementControls(keys.(keyA := !keys.keyA), dt, forward).rotation
    ensures keys.keyS ==>
      MovementControls(keys, dt, forward).velocity == MovementControls(keys.(keyW := !keys.keyW), dt, forward).velocity
    ensures keys.shiftLeft ==>
      MovementControls(keys, dt, forward).roll == MovementControls(keys.(controlLeft := !keys.controlLeft), dt, forward).roll
  {
  }

  /** Each intent depends only on its own pair of keys. */
  lemma IntentsIndependent(k1: Keys, k2: Keys, dt: real, forward: Vec3)
    requires dt >= 0.0
    ensures k1.keyD == k2.keyD && k1.keyA == k2.keyA ==>
      MovementControls(k1, dt, forward).rotation == MovementControls(k2, dt, forward).rotation
    ensures k1.keyS == k2.keyS && k1.keyW == k2.keyW ==>
      MovementControls(k1, dt, forward).velocity == MovementControls(k2, dt, forward).velocity
    ensures k1.shiftLeft == k2.shiftLeft && k1.controlLeft == k2.controlLeft ==>
      MovementControls(k1, dt, forward).roll == MovementControls(k2, dt, forward).roll
  {
  }

  /** One frame of the weapon system: a missile spawned ahead of the ship, flying along
      `-forward`, whenever Space is held. */
  function FireMissile(keys: Keys, shipTranslation: Vec3, forward: Vec3): (r: Option<Bundle>)
    ensures r.Some? <==> keys.space
    ensures r.Some? ==> r.value.kind == SpaceshipMissile
    ensures r.Some? ==> r.value.acceleration == Zero && r.value.radius == 1.0
    ensures r.Some? ==> r.value.health.None? && r.value.damage.None?
    ensures r.Some? ==> r.value.velocity == Scale(Neg(forward), 50.0)
    ensures r.Some? ==> r.value.translation == Add(shipTranslation, Scale(Neg(forward), 7.5))
  {
    if keys.space then
      Some(Bundle(
        SpaceshipMissile,
        Add(shipTranslation, Scale(Neg(forward), MISSILE_FORWARD_SPAWN_SCALAR)),
        Scale(Neg(forward), MISSILE_SPEED),
        Zero,
        MISSILE_RADIUS,
        None,
        None))
    else None
  }

  /** The missile starts on its own line of flight, 0.15 s of travel ahead of the ship,
      and moves at 50 times the length of `forward`. */
  lemma MissileFlightLine(keys: Keys, shipTranslation: Vec3, forward: Vec3)
    requires keys.space
    ensures var m := FireMissile(keys, shipTranslation, forward).value;
      && m.translation == Add(shipTranslation, Scale(m.velocity, 0.15))
      && NormSq(m.velocity) == 2500.0 * NormSq(forward)
  {
    NormSqScale(Neg(forward), MISSILE_SPEED);
    assert NormSq(Neg(forward)) == NormSq(forward);
  }

  /** When the ship thrusts with W without turning, a missile fired the same frame flies
      the same way at twice the ship's speed. Without a turn both systems see the same
      `forward`, whichever runs first, because the roll about the ship's own z axis
      leaves `forward` unchanged. With D or A held the weapon may read the forward
      direction from before the turn, and the claim no longer holds. */
  lemma MissileOutrunsShip(keys: Keys, dt: real, shipTranslation: Vec3, forward: Vec3)
    requires dt >= 0.0 && keys.space && keys.keyW && !keys.keyS
    requires !keys.keyD && !keys.keyA
    ensures FireMissile(keys, shipTranslation, forward).value.velocity
         == Scale(MovementControls(keys, dt, forward).velocity, 2.0)
  {
  }

  /** One frame as the weapon system sees it. */
  datatype Frame = Frame(keys: Keys, shipTranslation: Vec3, forward: Vec3)

  /** The missile a frame with Space held fires. */
  function Fired(f: Frame): Bundle
    requires f.keys.space
  {
    FireMissile(f.keys, f.shipTranslation, f.forward).value
  }

  /** The frames on which Space is held, in order. */
  function HeldOnly(frames: seq<Frame>): (held: seq<Frame>)
    ensures forall f :: f in held <==> f in frames && f.keys.space
  {
    if |frames| == 0 then []
    else if frames[0].keys.space then [frames[0]] + HeldOnly(frames[1..])
    else HeldOnly(frames[1..])
  }

  /** The missiles spawned over a sequence of frames: in order, exactly the missile of
      each frame with Space held. */
  function FireOverFrames(frames: seq<Frame>): (missiles: seq<Bundle>)
    ensures forall m :: m in missiles ==> m.kind == SpaceshipMissile
    ensures |missiles| == |HeldOnly(frames)|
    ensures forall i :: 0 <= i < |missiles| ==> missiles[i] == Fired(HeldOnly(frames)[i])
  {
    if |frames| == 0 then []
    else
      var f := frames[0];
      match FireMissile(f.keys, f.shipTranslation, f.forward)
      case Some(m) => [m] + FireOverFrames(frames[1..])
      case None => FireOverFrames(frames[1..])
  }

  function HeldFrames(frames: seq<Frame>): nat {
    if |frames| == 0 then 0 else (if frames[0].keys.space then 1 else 0) + HeldFrames(frames[1..])
  }

  /** Holding Space fires on every frame it is held, not only when it goes down. */
  lemma {:induction false} OneMissilePerHeldFrame(frames: seq<Frame>)
    ensures |FireOverFrames(frames)| == HeldFrames(frames)
  {
    if |frames| > 0 {
      OneMissilePerHeldFrame(frames[1..]);
    }
  }
}
