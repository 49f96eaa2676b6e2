# Asteroids game systems in Dafny

A model of the decision logic inside the Bevy systems of a small 3-D asteroids game:
the player's ship and its controls, the missiles it fires, the timer-driven asteroid
spawner, the pause toggle, and the lifecycle reaper that despawns entities that drift
too far away or run out of health. Engine calls, the random number generator and glam's
f32 vector maths are abstracted: vectors are triples of `real`, random draws and vector
lengths are parameters, and the ship's `forward()` direction is an input.

Files, one module each:

- `vectors.dfy` (`Vectors`): `Vec3` over `real`, squared length and the small facts
  about squares the other proofs use.
- `entities.dfy` (`Entities`): component bundles, entities with identifiers, and the
  entity store with fresh-identifier spawning. Marker components are a `Kind` tag;
  `Health` (from `src/health.rs`) and `CollisionDamage` are optional fields.
- `despawn.dfy` (`Despawn`): the far-away and dead-entity systems, the removal set of
  one despawn phase, and the store after it.
- `state.dfy` (`GameStates`): `GameState` with its default, and the Escape toggle.
- `spaceship.dfy` (`Spaceship`): ship spawn bundle, key-to-intent mapping and velocity
  overwrite, missile firing.
- `asteroids.dfy` (`Asteroids`): range sampling, `normalize_or_zero`, and the spawn step.
- `lifecycle.dfy` (`Lifecycle`): spawned ships and asteroids survive the despawn phase.

Modelling choices:

- An entity's `translation` stands for the position each system reads. The far-away
  system reads the `GlobalTransform`; these entities have no parent, so it mirrors
  their `Transform`. When the engine propagates one to the other is not modelled.
- The distance test `distance > 100` is stated as `NormSq(p) > 100²`.
  `Despawn.DistanceRule` proves the two agree for any non-negative `d` with `d² = NormSq(p)`.
- Each `gen_range(lo..hi)` call is modelled as `lo + u·(hi − lo)` for a unit sample `u`
  in `[0, 1)`. The model proves that this reaches exactly the half-open range.
- `normalize_or_zero` takes the vector's length as a parameter, because there is no
  square root over `real`. With the true length, the result is a unit vector, or the
  zero vector when the input is zero.
- `forward` in `MovementControls` is the ship's forward direction after this frame's
  turn and roll. In `FireMissile` it is the ship's forward direction when the weapon
  system runs. The source does not order these two systems against each other.
- Despawn commands are collected as a set of identifiers and applied at once. Despawning
  an entity that matches both rules therefore removes it once.
- The range `-25.0..25.0` in the source is half-open, so an asteroid's x lies in
  `[-25, 25)`, not in the closed interval `[-25, 25]`. The model follows the code.
- The pause machine has three states, not two. `GameOver` ignores Escape. The model
  follows the code.

## Model

| member | source | states |
|---|---|---|
| Entities.Spawn | src/asteroids.rs:92-107 | a spawn command appends one entity with a fresh identifier and leaves every existing entity as it was; a valid store stays valid |
| Entities.SpawnIfAny | src/spaceship.rs:100-102 | a system that may spawn adds at most one entity and none when it issues no command |
| Despawn.DespawnWhere | src/despawn.rs:19-24 | one pass over the query issues a despawn for exactly the entities the condition matches |
| Despawn.DespawnFarAwayEntities | src/despawn.rs:18-25 | an id is despawned iff some entity with that id lies strictly beyond the despawn distance |
| Despawn.DespawnDeadEntities | src/despawn.rs:31-37 | an id is despawned iff some entity with that id has a `Health` component at or below zero |
| Despawn.RemovalSet | src/despawn.rs:11-14 | the ids removed in one despawn phase are exactly those of entities far away or dead |
| Despawn.Survivors | src/despawn.rs:35 | applying despawn commands keeps exactly the entities whose id was not despawned, unchanged, and never shares an id |
| Despawn.Reap | src/despawn.rs:9-15 | after the despawn phase an entity is present iff it was present, is within the distance bound and is not dead; the store stays valid |
| Despawn.DistanceRule | src/despawn.rs:20-22 | the squared-length test agrees with `distance > 100` for the non-negative distance |
| Despawn.FarAwayIsReaped | src/despawn.rs:18-25 | distance over 100 gets an entity removed; distance 100 or less leaves a living entity in place |
| Despawn.DeadIsReaped | src/despawn.rs:31-37 | health at or below zero, zero included, gets an entity removed |
| Despawn.NoHealthOnlyDistance | src/despawn.rs:18-37 | an entity without `Health` is removed iff it is far away |
| Despawn.Boundaries | src/despawn.rs:22-33 | 100 units out is kept and 101 units out is removed; health 0 is dead and positive health is not |
| Despawn.ReapIdempotent | src/despawn.rs:11-14 | a second despawn phase right after the first removes nothing |
| GameStates.OnInput | src/state.rs:20-32 | without Escape the state is unchanged; with Escape, `InGame` and `Paused` change and `GameOver` does not; `GameOver` is entered from nowhere else |
| GameStates.EscapeToggles | src/state.rs:25-30 | Escape takes `InGame` to `Paused`, `Paused` to `InGame`, and leaves `GameOver` |
| GameStates.DoublePressIsIdentity | src/state.rs:27-28 | two Escape presses in a row return to the starting state |
| GameStates.Run | src/state.rs:15-16 | over any sequence of frames the state is `GameOver` at the end iff it was at the start |
| GameStates.RunParity | src/state.rs:25-30 | from `InGame` or `Paused`, the state after a run is fixed by the parity of the Escape presses |
| GameStates.NeverGameOverFromStart | src/state.rs:3-9 | from the default state `InGame` no input sequence reaches `GameOver` |
| Spaceship.SpawnSpaceship | src/spaceship.rs:35-48 | the ship spawns at (0, 0, −20) at rest, radius 5, without health or damage |
| Spaceship.MovementControls | src/spaceship.rs:51-91 | D wins over A, S over W, Shift over Control; turn and roll stay within 2.5·dt; the velocity is `forward`·25 on S, `forward`·(−25) on W alone, and zero otherwise |
| Spaceship.ApplyMovementControls | src/spaceship.rs:90 | among the modelled components only the velocity changes (the rotation of the ship's `Transform` is not modelled); the new velocity is `forward`·25 on S, `forward`·(−25) on W alone and zero otherwise, so its length is 25·‖forward‖ while W or S is held |
| Spaceship.KeyPrecedence | src/spaceship.rs:61-79 | when a pair's first key is held, toggling the second key changes nothing |
| Spaceship.IntentsIndependent | src/spaceship.rs:57-79 | turn, thrust and roll each depend only on their own pair of keys |
| Spaceship.FireMissile | src/spaceship.rs:93-120 | a missile is produced iff Space is held: velocity −forward·50, zero acceleration, radius 1, starting at ship − forward·7.5 |
| Spaceship.MissileFlightLine | src/spaceship.rs:104-113 | the missile starts on its own line of flight 0.15 s ahead of the ship and its speed is 50·‖forward‖ |
| Spaceship.MissileOutrunsShip | src/spaceship.rs:83-104 | thrusting with W without turning while firing, the missile flies the ship's way at twice its speed, whichever of the two systems runs first |
| Spaceship.HeldOnly | src/spaceship.rs:100 | the frames the weapon fires on are exactly those with Space held |
| Spaceship.FireOverFrames | src/spaceship.rs:100-118 | over a sequence of frames the weapon spawns, in order, exactly the missile `FireMissile` builds for each frame with Space held, and nothing else |
| Spaceship.OneMissilePerHeldFrame | src/spaceship.rs:100-118 | exactly one missile per frame Space is held, not only when it goes down |
| Asteroids.GenRangeBounds | src/asteroids.rs:80-84 | a unit sample lands in the half-open range |
| Asteroids.GenRangeCovers | src/asteroids.rs:80-84 | every point of the half-open range is reached by some unit sample |
| Asteroids.NormalizeNonZero | src/asteroids.rs:87-88 | with the true length, any non-zero vector normalizes to unit length |
| Asteroids.NormalizeKeepsPlane | src/asteroids.rs:88 | a direction sampled in the x/z plane stays in it |
| Asteroids.SpawnAsteroid | src/asteroids.rs:63-108 | an asteroid is produced iff the timer just finished; health 100, damage 35, radius 2.5, and y = 0 for translation, velocity and acceleration |
| Asteroids.SpawnWithinRange | src/asteroids.rs:16-17 | a spawned asteroid lies in [−25, 25) × {0} × [0, 25) |
| Asteroids.SpawnRangeCovered | src/asteroids.rs:80-84 | every point of that region is a possible spawn point |
| Asteroids.DrawnDirection | src/asteroids.rs:86-88 | a sampled direction, normalized and scaled by a positive speed, is zero iff the sample was zero, and otherwise points the sample's way with length equal to the speed |
| Asteroids.SpawnVelocity | src/asteroids.rs:86-89 | the velocity is zero iff the first sampled direction was; otherwise it points that way with speed 5 |
| Asteroids.SpawnAcceleration | src/asteroids.rs:86-90 | the acceleration is zero iff the second sampled direction was; otherwise it points that way with magnitude 1 |
| Asteroids.SpawnStep | src/asteroids.rs:72-107 | nothing happens unless the timer just finished; then exactly one entity, carrying the spawned asteroid's components, is added and existing entities are untouched |
| Lifecycle.SpawnedShipSurvivesReap | src/spaceship.rs:35-48 | the freshly spawned ship is kept by the despawn phase |
| Lifecycle.SpawnedAsteroidSurvivesReap | src/asteroids.rs:80-106 | a freshly spawned asteroid is within the distance bound with positive health, so the despawn phase keeps it |

## Left out

- f32 arithmetic: every computation is over `real`, so rounding, overflow and NaN are not modelled and no result is claimed bit-exact.
- Bevy's repeating `Timer` (src/asteroids.rs:37-39, :72) and its one-second period `SPAWN_TIME_SECONDS`: the tick and rollover are engine code, so "just finished" is an input to the spawn step. The spawn cadence over many frames is therefore not modelled.
- `rotate_asteroids` (src/asteroids.rs:110-114) and the ship's `rotate_y` / `rotate_local_z` (src/spaceship.rs:83-86): quaternion rotation is glam float maths. The model returns the turn and roll angles as intents, and `forward()` is an input vector.
- The random generator itself: `rand`'s sampling algorithm and `thread_rng` are external, so draws are parameters. The square root inside `normalize_or_zero` is external too, so the length is a parameter.
- Asteroids.GenRange: models `gen_range` as an exact affine map of a unit sample. It relies on the generator's documented contract that a half-open range never yields its upper bound.
- ECS plumbing: `Commands`, `Query`, the panic of `single` / `single_mut` when there is not exactly one ship, scene asset handles, `despawn_recursive` of child entities, and the `println!` calls (src/despawn.rs:34, src/spaceship.rs:101).
- src/main.rs: app wiring only, with no logic to model.
- Collision detection, the movement integrator and the phase sets: `collision_detection`, `movement` and `schedule` are not part of this model. Nothing here says how health falls or how positions advance between frames.
- Spaceship.MovementControls: requires `dt >= 0`, which the frame clock guarantees. The bounds on turn and roll rely on it.
- Spaceship.MissileOutrunsShip: requires that neither D nor A is held. The movement and weapon systems run in no fixed order, so during a turn the weapon may read the forward direction from before the turn, and the two velocities then point different ways.
