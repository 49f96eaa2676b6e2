/** How the spawners and the reaper fit together: the ship and every asteroid start
    inside the despawn distance with positive health (or none), so the despawn phase
    that follows their spawn never removes them. Missiles carry no such guarantee:
    one fired near the edge can start beyond the distance and be removed at once. */
module Lifecycle {
  import opened Vectors
  import opened Entities
  import opened Despawn
  import Spaceship
  import Asteroids

  /** The ship spawns 20 units from the origin without a `Health` component, so the
      reaper keeps it. */
  lemma SpawnedShipSurvivesReap(w: World)
    requires Valid(w)
    ensures var s := Spawn(w, Spaceship.SpawnSpaceship());
      s.entities[|w.entities|] in Reap(s).entities
  {
    var s := Spawn(w, Spaceship.SpawnSpaceship());
    var e := s.entities[|w.entities|];
    assert NormSq(e.components.translation) == Sq(20.0);
    assert !IsFarAway(e);
  }

  /** A freshly spawned asteroid lies within `25 * sqrt(2)` of the origin and has 100
      health, so the reaper keeps it. */
  lemma SpawnedAsteroidSurvivesReap(w: World, d: Asteroids.SpawnDraws)
    requires Valid(w) && Asteroids.ValidDraws(d)
    ensures var s := Asteroids.SpawnStep(w, true, d);
      s.entities[|w.entities|] in Reap(s).entities
  {
    var s := Asteroids.SpawnStep(w, true, d);
    var e := s.entities[|w.entities|];
    Asteroids.SpawnWithinRange(d);
    var t := e.components.translation;
    SqBound(t.x, -25.0, 25.0);
    SqBound(t.z, 0.0, 25.0);
    assert NormSq(t) <= 1250.0;
    assert !IsFarAway(e);
    assert !IsDead(e);
  }
}
