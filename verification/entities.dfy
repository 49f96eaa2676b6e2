/** The entity store shared by the game systems: each entity is an identifier with the
    component bundle it was spawned with. Marker components (`Spaceship`,
    `SpaceshipMissile`, `Asteroid`) become a `Kind` tag; `Health` and `CollisionDamage`
    are optional because only some bundles carry them. */
module Entities {
  import opened Vectors

  datatype Option<T> = None | Some(value: T)

  datatype Kind = Spaceship | SpaceshipMissile | Asteroid

  /** The `Health` component: a single scalar, dead at or below zero. */
  datatype Health = Health(value: real)

  /** What a spawn command attaches to a new entity: translation and the moving-object
      bundle (velocity, acceleration, collider radius), plus the optional health and
      collision-damage components. Rotation and scene handles are not modelled. */
  datatype Bundle = Bundle(
    kind: Kind,
    translation: Vec3,
    velocity: Vec3,
    acceleration: Vec3,
    radius: real,
    health: Option<Health>,
    damage: Option<real>)

  datatype Entity = Entity(id: nat, components: Bundle)

  /** The store, with the next identifier the engine will hand out. */
  datatype World = World(entities: seq<Entity>, nextId: nat)

  function Ids(es: seq<Entity>): set<nat> {
    set e | e in es :: e.id
  }

  /** No two entities share an identifier. */
  predicate DistinctIds(es: seq<Entity>) {
    forall i, j :: 0 <= i < j < |es| ==> es[i].id != es[j].id
  }

  /** Identifiers are distinct and all below the next one to be allocated. */
  predicate Valid(w: World) {
    && (forall e :: e in w.entities ==> e.id < w.nextId)
    && DistinctIds(w.entities)
  }

  /** Applies one spawn command: a new entity with a fresh identifier is appended and
      every existing entity is left as it was. */
  function Spawn(w: World, b: Bundle): (r: World)
    ensures |r.entities| == |w.entities| + 1
    ensures r.entities[..|w.entities|] == w.entities
    ensures r.entities[|w.entities|].components == b
    ensures Valid(w) ==> Valid(r) && r.entities[|w.entities|].id !in Ids(w.entities)
  {
    World(w.entities + [Entity(w.nextId, b)], w.nextId + 1)
  }

  /** Applies a spawn command if a system issued one. */
  function SpawnIfAny(w: World, ob: Option<Bundle>): (r: World)
    ensures ob.None? ==> r == w
    ensures ob.Some? ==> r == Spawn(w, ob.value)
    ensures |w.entities| <= |r.entities| <= |w.entities| + 1
    ensures r.entities[..|w.entities|] == w.entities
    ensures Valid(w) ==> Valid(r)
  {
    match ob
    case None => w
    case Some(b) => Spawn(w, b)
  }
}
