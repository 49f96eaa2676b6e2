/** The lifecycle reaper: two systems that run in the despawn phase and issue despawn
    commands, one for entities that drifted too far from the origin and one for
    entities whose health is used up. The commands take effect together when the
    phase ends, so an entity matching both rules is removed once. */
module Despawn {
  import opened Vectors
  import opened Entities

  const DESPAWN_DISTANCE: real := 100.0

  /** Strictly farther than `DESPAWN_DISTANCE` from the origin, measured at the position
      the query reads (the entity's global translation). */
  predicate IsFarAway(e: Entity) {
    NormSq(e.components.translation) > Sq(DESPAWN_DISTANCE)
  }

  /** Carries a `Health` component whose value is zero or below. */
  predicate IsDead(e: Entity) {
    e.components.health.Some? && e.components.health.value.value <= 0.0
  }

  /** Reference definition of the ids a system matching `p` despawns. */
  function IdsWhere(es: seq<Entity>, p: Entity -> bool): set<nat> {
    set e | e in es && p(e) :: e.id
  }

  /** One despawn system: walks the query once and issues a despawn command for every
      entity the condition matches. */
  method DespawnWhere(es: seq<Entity>, p: Entity -> bool) returns (despawned: set<nat>)
    ensures despawned == IdsWhere(es, p)
  {
    despawned := {};
    var i := 0;
    while i < |es|
      invariant 0 <= i <= |es|
      invariant despawned == IdsWhere(es[..i], p)
    {
      assert es[..i + 1] == es[..i] + [es[i]];
      if p(es[i]) {
        despawned := despawned + {es[i].id};
      }
      i := i + 1;
    }
    assert es[..|es|] == es;
  }

  /** The far-away system: every entity beyond the bound gets a despawn command. */
  method DespawnFarAwayEntities(es: seq<Entity>) returns (despawned: set<nat>)
    ensures forall id :: id in despawned <==> exists e :: e in es && e.id == id && IsFarAway(e)
  {
    despawned := DespawnWhere(es, IsFarAway);
  }

  /** The dead-entity system: every entity whose health is at or below zero gets a
      despawn command; entities without `Health` are not visited. */
  method DespawnDeadEntities(es: seq<Entity>) returns (despawned: set<nat>)
    ensures forall id :: id in despawned <==> exists e :: e in es && e.id == id && IsDead(e)
  {
    despawned := DespawnWhere(es, IsDead);
  }

  /** All ids despawned in one despawn phase: what both systems issue. */
  function RemovalSet(es: seq<Entity>): (r: set<nat>)
    ensures forall id :: id in r <==> exists e :: e in es && e.id == id && (IsFarAway(e) || IsDead(e))
  {
    IdsWhere(es, IsFarAway) + IdsWhere(es, IsDead)
  }

  /** The entities whose ids were not despawned, in their original order. */
  function Survivors(es: seq<Entity>, ids: set<nat>): (r: seq<Entity>)
    ensures |r| <= |es|
    ensures forall e :: e in r <==> e in es && e.id !in ids
    ensures DistinctIds(es) ==> DistinctIds(r)
  {
    if |es| == 0 then []
    else
      var rest := Survivors(es[1..], ids);
      assert DistinctIds(es) ==> forall e :: e in es[1..] ==> e.id != es[0].id by {
        if DistinctIds(es) {
          forall e | e in es[1..]
            ensures e.id != es[0].id
          {
            var j :| 0 <= j < |es[1..]| && es[1..][j] == e;
            assert es[j + 1] == e;
          }
        }
      }
      assert DistinctIds(es) ==> DistinctIds(es[1..]) by {
        if DistinctIds(es) {
          forall i, j | 0 <= i < j < |es[1..]|
            ensures es[1..][i].id != es[1..][j].id
          {
            assert es[1..][i] == es[i + 1] && es[1..][j] == es[j + 1];
          }
        }
      }
      if es[0].id in ids then rest else [es[0]] + rest
  }

  /** Applies the despawn phase to the store. */
  function Reap(w: World): (r: World)
    ensures r.nextId == w.nextId
    ensures Valid(w) ==> Valid(r)
    ensures Valid(w) ==> forall e :: e in r.entities <==> e in w.entities && !IsFarAway(e) && !IsDead(e)
  {
    var ids := RemovalSet(w.entities);
    var r := World(Survivors(w.entities, ids), w.nextId);
    assert Valid(w) ==> forall e :: e in w.entities ==> (e.id in ids <==> IsFarAway(e) || IsDead(e)) by {
      if Valid(w) {
        forall e | e in w.entities
          ensures e.id in ids <==> IsFarAway(e) || IsDead(e)
        {
          if e.id in ids {
            var e' :| e' in w.entities && e'.id == e.id && (IsFarAway(e') || IsDead(e'));
            SameIdSameEntity(w.entities, e, e');
          }
        }
      }
    }
    r
  }

  lemma SameIdSameEntity(es: seq<Entity>, e: Entity, e': Entity)
    requires DistinctIds(es) && e in es && e' in es && e.id == e'.id
    ensures e == e'
  {
    var i :| 0 <= i < |es| && es[i] == e;
    var j :| 0 <= j < |es| && es[j] == e';
  }

  /** The distance rule on squared lengths agrees with the source's test
      `distance > DESPAWN_DISTANCE` for the non-negative distance `d`. */
  lemma DistanceRule(p: Vec3, d: real)
    requires d >= 0.0 && Sq(d) == NormSq(p)
    ensures NormSq(p) > Sq(DESPAWN_DISTANCE) <==> d > DESPAWN_DISTANCE
  {
    if d > DESPAWN_DISTANCE {
      SqStrictMono(DESPAWN_DISTANCE, d);
    } else {
      SqMono(d, DESPAWN_DISTANCE);
    }
  }

  /** An entity at distance `d > 100` is despawned; at exactly 100 (or closer) the
      distance rule leaves it alone. */
  lemma FarAwayIsReaped(w: World, e: Entity, d: real)
    requires Valid(w) && e in w.entities
    requires d >= 0.0 && Sq(d) == NormSq(e.components.translation)
    ensures d > DESPAWN_DISTANCE ==> e !in Reap(w).entities && e.id in RemovalSet(w.entities)
    ensures d <= DESPAWN_DISTANCE && !IsDead(e) ==> e in Reap(w).entities
  {
    DistanceRule(e.components.translation, d);
  }

  /** Health at or below zero, zero included, gets an entity despawned wherever it is. */
  lemma DeadIsReaped(w: World, e: Entity)
    requires Valid(w) && e in w.entities
    requires e.components.health.Some? && e.components.health.value.value <= 0.0
    ensures e !in Reap(w).entities && e.id in RemovalSet(w.entities)
  {
  }

  /** Without a `Health` component only the distance rule applies. */
  lemma NoHealthOnlyDistance(w: World, e: Entity)
    requires Valid(w) && e in w.entities && e.components.health.None?
    ensures e in Reap(w).entities <==> !IsFarAway(e)
  {
  }

  /** Both rules at their boundaries: 100 units out is kept, 101 units out is not;
      health exactly 0 is removed, any positive health is kept. */
  lemma Boundaries(h: real)
    requires h > 0.0
    ensures !IsFarAway(Entity(0, Bundle(Asteroid, Vec3(100.0, 0.0, 0.0), Zero, Zero, 2.5, Some(Health(h)), None)))
    ensures IsFarAway(Entity(0, Bundle(Asteroid, Vec3(101.0, 0.0, 0.0), Zero, Zero, 2.5, Some(Health(h)), None)))
    ensures IsDead(Entity(0, Bundle(Asteroid, Zero, Zero, Zero, 2.5, Some(Health(0.0)), None)))
    ensures !IsDead(Entity(0, Bundle(Asteroid, Zero, Zero, Zero, 2.5, Some(Health(h)), None)))
  {
  }

  lemma {:induction false} SurvivorsOfNothing(es: seq<Entity>, ids: set<nat>)
    requires forall e :: e in es ==> e.id !in ids
    ensures Survivors(es, ids) == es
  {
    if |es| > 0 {
      assert es[0] in es;
      forall e | e in es[1..]
        ensures e.id !in ids
      {
        assert e in es;
      }
      SurvivorsOfNothing(es[1..], ids);
      assert es == [es[0]] + es[1..];
    }
  }

  /** A second despawn phase right after the first removes nothing. */
  lemma ReapIdempotent(w: World)
    requires Valid(w)
    ensures Reap(Reap(w)) == Reap(w)
  {
    var r := Reap(w);
    assert RemovalSet(r.entities) == {};
    SurvivorsOfNothing(r.entities, RemovalSet(r.entities));
  }
}
