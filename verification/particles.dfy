/**
 * The particle pool of main.js: `updateParticles`, `spawnParticlesAtMouse`
 * and `resetParticles`.  A particle is a record; the pool is a sequence the
 * procedures rebuild.  Every value `utils.random` or `uniqolor` would supply
 * is a parameter, and the lemmas that need its range say so.
 */
module Particles {

  import opened Wrappers
  import opened Field

  /** `maxTrailLength`. */
  const MaxTrail: nat := 3
  /** `maxDelta`: the largest move per tick that is not a discontinuity. */
  const MaxDelta: real := 60.0
  /** `offScreenBuffer`: how far beyond the screen a particle may be. */
  const Buffer: real := 100.0

  /** One trail point, with the `utils.millis()` time it was made. */
  datatype TrailPoint = TrailPoint(x: real, y: real, birthTime: real)

  datatype Particle = Particle(x: real, y: real, trail: seq<TrailPoint>, color: string,
                               speed: real, life: real, age: nat)

  /** The screen and the clock of one tick: `timeMultiplier` is `deltaTime / 16.67`. */
  datatype Tick = Tick(width: real, height: real, timeMultiplier: real, now: real)

  /** A position `utils.random(width)`, `utils.random(height)` would give. */
  datatype Spot = Spot(x: real, y: real)

  /** The values a respawn draws: position, colour, life and speed. */
  datatype Rebirth = Rebirth(x: real, y: real, color: string, life: real, speed: real)

  function Abs(v: real): real {
    if v < 0.0 then -v else v
  }

  /** A spot on the screen, as `utils.random` draws it. */
  predicate OnScreen(s: Spot, t: Tick) {
    0.0 <= s.x < t.width && 0.0 <= s.y < t.height
  }

  /** The ranges of a respawn's draws. */
  predicate RebirthRange(r: Rebirth, t: Tick) {
    0.0 <= r.x < t.width && 0.0 <= r.y < t.height && 0.7 <= r.life < 1.0 && 0.6 <= r.speed < 2.5
  }

  /** A particle as the refill loop (and `initSimulation`) creates it. */
  predicate Newborn(p: Particle, t: Tick) {
    p.trail == [] && p.age == 0 && 0.0 <= p.x < t.width && 0.0 <= p.y < t.height &&
    0.6 <= p.speed < 2.5 && 0.7 <= p.life < 1.0
  }

  /** The move of one coordinate: `force * speed * 0.5 * timeMultiplier`. */
  function Displacement(force: real, speed: real, tm: real): real {
    force * speed * 0.5 * tm
  }

  /**
   * The position step: move along the force, and when either coordinate
   * moved more than 60, jump to a newcomers spot with an empty trail.
   */
  function Moved(p: Particle, force: Vec2, t: Tick, spot: Spot): Particle {
    var x := p.x + Displacement(force.x, p.speed, t.timeMultiplier);
    var y := p.y + Displacement(force.y, p.speed, t.timeMultiplier);
    if Abs(x - p.x) > MaxDelta || Abs(y - p.y) > MaxDelta then p.(x := spot.x, y := spot.y, trail := [])
    else p.(x := x, y := y)
  }

  /** `farOffScreen`: more than 100 beyond some edge. */
  predicate FarOffScreen(p: Particle, t: Tick) {
    p.x < -Buffer || p.x > t.width + Buffer || p.y < -Buffer || p.y > t.height + Buffer
  }

  /** The screen extended by 100 on every side, where trail points are recorded. */
  predicate InExtended(p: Particle, t: Tick) {
    p.x >= -Buffer && p.x <= t.width + Buffer && p.y >= -Buffer && p.y <= t.height + Buffer
  }

  /** `trail.push(point)`, then `trail.shift()` when the trail has grown too long. */
  function Push(trail: seq<TrailPoint>, point: TrailPoint): seq<TrailPoint> {
    var longer := trail + [point];
    if |longer| > MaxTrail then longer[1..] else longer
  }

  /** Record the current position on the trail when it lies in the extended screen. */
  function Trailed(p: Particle, t: Tick): Particle {
    if InExtended(p, t) then p.(trail := Push(p.trail, TrailPoint(p.x, p.y, t.now))) else p
  }

  /** One tick older, with `0.001 * timeMultiplier` less life. */
  function Aged(p: Particle, t: Tick): Particle {
    p.(age := p.age + 1, life := p.life - 0.001 * t.timeMultiplier)
  }

  /** The respawn of a spent particle; its trail is kept. */
  function Respawned(p: Particle, r: Rebirth): Particle {
    p.(x := r.x, y := r.y, color := r.color, life := r.life, speed := r.speed, age := 0)
  }

  /**
   * One iteration of the loop of `updateParticles` for a particle under a
   * force: `None` when the particle is dropped.
   */
  function Advance(p: Particle, force: Vec2, t: Tick, spot: Spot, r: Rebirth): Option<Particle> {
    var q := Moved(p, force, t, spot);
    if FarOffScreen(q, t) then None
    else
      var a := Aged(Trailed(q, t), t);
      Some(if a.life <= 0.0 then Respawned(a, r) else a)
  }

  /** `particlesToKeep` after the first `n` particles of `ps`. */
  function Survivors(ps: seq<Particle>, field: Option<(real, real) -> Vec2>, t: Tick,
                     spots: seq<Spot>, rebirths: seq<Rebirth>, n: nat): seq<Particle>
    requires n <= |ps| && |spots| == |ps| && |rebirths| == |ps|
  {
    if n == 0 || field.None? then []
    else
      var p := ps[n - 1];
      var rest := Survivors(ps, field, t, spots, rebirths, n - 1);
      match Advance(p, field.value(p.x, p.y), t, spots[n - 1], rebirths[n - 1])
      case None => rest
      case Some(q) => rest + [q]
  }

  /** How many particles the refill loop appends after `kept` survive. */
  function RefillCount(kept: nat, target: int): nat {
    if kept < target then target - kept else 0
  }

  /** `particles.splice(0, particles.length - numParticles * 2)` when the pool exceeds three times the target. */
  function Trimmed(ps: seq<Particle>, target: int): seq<Particle> {
    if |ps| > target * 3 then
      var cut := |ps| - target * 2;
      if cut >= |ps| then [] else ps[cut..]
    else ps
  }

  /** Every trail holds at most `maxTrailLength` points. */
  predicate TrailsBounded(ps: seq<Particle>) {
    forall i :: 0 <= i < |ps| ==> |ps[i].trail| <= MaxTrail
  }

  // ---------------------------------------------------------------------------
  // One particle
  // ---------------------------------------------------------------------------

  /**
   * A particle that is not moved to a newcomers spot moves at most 60 in each
   * axis; one that is has an empty trail and a spot on the screen.
   */
  lemma MovedBounds(p: Particle, force: Vec2, t: Tick, spot: Spot)
    requires OnScreen(spot, t)
    ensures var q := Moved(p, force, t, spot);
      (Abs(q.x - p.x) <= MaxDelta && Abs(q.y - p.y) <= MaxDelta && q.trail == p.trail) ||
      (q.x == spot.x && q.y == spot.y && q.trail == [] && 0.0 <= q.x < t.width && 0.0 <= q.y < t.height)
  {
  }

  /** A move of exactly 60 along one axis, and no more along the other, is not a jump. */
  lemma MoveOfSixtyKept(p: Particle, force: Vec2, t: Tick, spot: Spot)
    requires Displacement(force.x, p.speed, t.timeMultiplier) == MaxDelta
    requires Abs(Displacement(force.y, p.speed, t.timeMultiplier)) <= MaxDelta
    ensures Moved(p, force, t, spot).x == p.x + MaxDelta
  {
  }

  /**
   * The trail grows by one point at a time, keeps at most `maxTrailLength`
   * points when it started with at most that many, ends with the new point,
   * and loses only points from its front.
   */
  lemma PushBounds(trail: seq<TrailPoint>, point: TrailPoint)
    ensures var pushed := Push(trail, point);
      |pushed| <= |trail| + 1 && |pushed| >= 1 && pushed[|pushed| - 1] == point &&
      (|trail| <= MaxTrail ==> |pushed| <= MaxTrail) &&
      pushed == (trail + [point])[|trail| + 1 - |pushed|..]
  {
  }

  /** A particle is dropped exactly when its moved position is far off the screen. */
  lemma AdvanceDrops(p: Particle, force: Vec2, t: Tick, spot: Spot, r: Rebirth)
    ensures Advance(p, force, t, spot, r).None? <==> FarOffScreen(Moved(p, force, t, spot), t)
  {
  }

  /**
   * A particle that is kept has recorded its moved position on its trail:
   * the extended-screen check on the trail never fails for it.  A respawn
   * does not clear the trail.
   */
  lemma AdvanceTrail(p: Particle, force: Vec2, t: Tick, spot: Spot, r: Rebirth)
    requires Advance(p, force, t, spot, r).Some?
    ensures var m := Moved(p, force, t, spot);
      Advance(p, force, t, spot, r).value.trail == Push(m.trail, TrailPoint(m.x, m.y, t.now))
  {
  }

  /**
   * A kept particle either ages by one tick and loses `0.001 * timeMultiplier`
   * of life, still positive, or is respawned from the draws with age 0.
   */
  lemma AdvanceLife(p: Particle, force: Vec2, t: Tick, spot: Spot, r: Rebirth)
    requires Advance(p, force, t, spot, r).Some?
    ensures var q := Advance(p, force, t, spot, r).value;
      var life := p.life - 0.001 * t.timeMultiplier;
      (life > 0.0 && q.age == p.age + 1 && q.life == life && q.speed == p.speed && q.color == p.color) ||
      (life <= 0.0 && q.age == 0 && q.life == r.life && q.speed == r.speed && q.color == r.color &&
       q.x == r.x && q.y == r.y)
  {
  }

  /**
   * A kept particle lies in the screen extended by 100, and a respawned one
   * on the screen itself, with life in [0.7, 1.0) and speed in [0.6, 2.5).
   */
  lemma AdvanceInside(p: Particle, force: Vec2, t: Tick, spot: Spot, r: Rebirth)
    requires RebirthRange(r, t)
    requires Advance(p, force, t, spot, r).Some?
    ensures InExtended(Advance(p, force, t, spot, r).value, t)
    ensures var q := Advance(p, force, t, spot, r).value;
      q.age == 0 ==> 0.0 <= q.x < t.width && 0.0 <= q.y < t.height && 0.7 <= q.life < 1.0 && 0.6 <= q.speed < 2.5
  {
  }

  /** A kept particle whose trail was within the maximum still has it within the maximum. */
  lemma AdvanceTrailBounded(p: Particle, force: Vec2, t: Tick, spot: Spot, r: Rebirth)
    requires |p.trail| <= MaxTrail
    requires Advance(p, force, t, spot, r).Some?
    ensures |Advance(p, force, t, spot, r).value.trail| <= MaxTrail
  {
    var m := Moved(p, force, t, spot);
    AdvanceTrail(p, force, t, spot, r);
    PushBounds(m.trail, TrailPoint(m.x, m.y, t.now));
  }

  // ---------------------------------------------------------------------------
  // The pool
  // ---------------------------------------------------------------------------

  /**
   * The particles kept after the first `i` are a prefix of those kept after
   * the first `n`: survivors keep their relative order.
   */
  lemma {:induction false} SurvivorsPrefix(ps: seq<Particle>, field: Option<(real, real) -> Vec2>, t: Tick,
                                          spots: seq<Spot>, rebirths: seq<Rebirth>, i: nat, n: nat)
    requires i <= n <= |ps| && |spots| == |ps| && |rebirths| == |ps|
    ensures var before := Survivors(ps, field, t, spots, rebirths, i);
      var after := Survivors(ps, field, t, spots, rebirths, n);
      |before| <= |after| && after[..|before|] == before
    decreases n
  {
    if i < n {
      SurvivorsPrefix(ps, field, t, spots, rebirths, i, n - 1);
    }
  }

  /** At most one survivor per particle, and none at all without a field. */
  lemma {:induction false} SurvivorsCount(ps: seq<Particle>, field: Option<(real, real) -> Vec2>, t: Tick,
                                         spots: seq<Spot>, rebirths: seq<Rebirth>, n: nat)
    requires n <= |ps| && |spots| == |ps| && |rebirths| == |ps|
    ensures |Survivors(ps, field, t, spots, rebirths, n)| <= n
    ensures field.None? ==> Survivors(ps, field, t, spots, rebirths, n) == []
    decreases n
  {
    if n > 0 && field.Some? {
      SurvivorsCount(ps, field, t, spots, rebirths, n - 1);
    }
  }

  /**
   * Survivors lie in the extended screen and keep their trails within the
   * maximum when they came in with trails within it.
   */
  lemma {:induction false} SurvivorsValid(ps: seq<Particle>, field: Option<(real, real) -> Vec2>, t: Tick,
                                         spots: seq<Spot>, rebirths: seq<Rebirth>, n: nat)
    requires n <= |ps| && |spots| == |ps| && |rebirths| == |ps|
    requires TrailsBounded(ps)
    requires forall k :: 0 <= k < |rebirths| ==> RebirthRange(rebirths[k], t)
    ensures var kept := Survivors(ps, field, t, spots, rebirths, n);
      TrailsBounded(kept) && forall k :: 0 <= k < |kept| ==> InExtended(kept[k], t)
    decreases n
  {
    if n > 0 && field.Some? {
      SurvivorsValid(ps, field, t, spots, rebirths, n - 1);
      var p := ps[n - 1];
      var force := field.value(p.x, p.y);
      if Advance(p, force, t, spots[n - 1], rebirths[n - 1]).Some? {
        AdvanceTrailBounded(p, force, t, spots[n - 1], rebirths[n - 1]);
        AdvanceInside(p, force, t, spots[n - 1], rebirths[n - 1]);
      }
    }
  }

  /**
   * After the refill the pool holds `max(survivors, numParticles)` particles:
   * the survivors in order, then newborns.
   */
  lemma Refilled(kept: seq<Particle>, target: int, newcomers: seq<Particle>, t: Tick)
    requires |newcomers| >= target
    requires forall k :: 0 <= k < |newcomers| ==> Newborn(newcomers[k], t)
    ensures var pool := kept + newcomers[..RefillCount(|kept|, target)];
      (|pool| == if |kept| < target then target else |kept|) &&
      pool[..|kept|] == kept &&
      forall k :: |kept| <= k < |pool| ==> Newborn(pool[k], t)
  {
    var pool := kept + newcomers[..RefillCount(|kept|, target)];
    assert forall k :: |kept| <= k < |pool| ==> pool[k] == newcomers[k - |kept|];
  }

  /**
   * When the pool exceeds three times a non-negative target, trimming keeps
   * exactly the newest `2 * target` particles, in order; otherwise it keeps
   * the pool.
   */
  lemma TrimmedNewest(ps: seq<Particle>, target: int)
    requires target >= 0
    ensures |ps| > target * 3 ==> |Trimmed(ps, target)| == target * 2 && Trimmed(ps, target) == ps[|ps| - target * 2..]
    ensures |ps| <= target * 3 ==> Trimmed(ps, target) == ps
  {
  }

  /** A particle as `spawnParticlesAtMouse` creates it around the pointer. */
  predicate MouseBorn(p: Particle, mouseX: real, mouseY: real) {
    p.trail == [] && p.age == 0 && mouseX - 20.0 <= p.x < mouseX + 20.0 && mouseY - 20.0 <= p.y < mouseY + 20.0 &&
    0.8 <= p.speed < 3.0 && 0.8 <= p.life < 1.0
  }

  /** The values `resetParticles` draws for one particle. */
  datatype Restart = Restart(x: real, y: real, life: real)

  /** `resetParticles` on one particle: a newcomers spot and life, an empty trail, age 0. */
  function Reset(p: Particle, r: Restart): Particle {
    p.(x := r.x, y := r.y, trail := [], life := r.life, age := 0)
  }

  /**
   * The body of the loop of `updateParticles` for one particle, as the source
   * updates it field by field; `None` when it is not kept.
   */
  method StepParticle(particle: Particle, force: Vec2, t: Tick, spot: Spot, r: Rebirth) returns (kept: Option<Particle>)
    ensures kept == Advance(particle, force, t, spot, r)
  {
    var p := particle;
    var prevX, prevY := p.x, p.y;
    p := p.(x := p.x + Displacement(force.x, p.speed, t.timeMultiplier),
            y := p.y + Displacement(force.y, p.speed, t.timeMultiplier));
    if Abs(p.x - prevX) > MaxDelta || Abs(p.y - prevY) > MaxDelta {
      p := p.(x := spot.x, y := spot.y, trail := []);
    }
    if FarOffScreen(p, t) {
      return None;
    }
    if InExtended(p, t) {
      var trail := p.trail + [TrailPoint(p.x, p.y, t.now)];
      if |trail| > MaxTrail {
        trail := trail[1..];
      }
      p := p.(trail := trail);
    }
    p := p.(age := p.age + 1, life := p.life - 0.001 * t.timeMultiplier);
    if p.life <= 0.0 {
      p := p.(x := r.x, y := r.y, color := r.color, life := r.life, speed := r.speed, age := 0);
    }
    return Some(p);
  }

  /** The pool and the target size `numParticles`. */
  class ParticleSystem {
    var particles: seq<Particle>
    var numParticles: int

    /** The pool as the module starts: empty, with a target of 1000. */
    constructor ()
      ensures particles == [] && numParticles == 1000
    {
      particles := [];
      numParticles := 1000;
    }

    /**
     * `updateParticles(deltaTime)`: move, cull, record trails and age every
     * particle under the field (dropping them all when there is none), keep
     * the survivors in order and refill to `numParticles`.  `spots[i]` and
     * `rebirths[i]` are what the i-th particle would draw for a jump and a
     * respawn; `newcomers` supplies the refill.
     */
    method UpdateParticles(deltaTime: real, width: real, height: real, now: real,
                           field: Option<(real, real) -> Vec2>,
                           spots: seq<Spot>, rebirths: seq<Rebirth>, newcomers: seq<Particle>)
      requires |spots| == |particles| && |rebirths| == |particles| && |newcomers| >= numParticles
      modifies this
      ensures numParticles == old(numParticles)
      ensures var t := Tick(width, height, deltaTime / 16.67, now);
        var kept := Survivors(old(particles), field, t, spots, rebirths, |old(particles)|);
        particles == kept + newcomers[..RefillCount(|kept|, numParticles)]
    {
      var t := Tick(width, height, deltaTime / 16.67, now);
      var ps := particles;
      var keep: seq<Particle> := [];
      var i := 0;
      while i < |ps|
        invariant 0 <= i <= |ps|
        invariant keep == Survivors(ps, field, t, spots, rebirths, i)
        invariant numParticles == old(numParticles)
      {
        if field.Some? {
          var force := field.value(ps[i].x, ps[i].y);
          var next := StepParticle(ps[i], force, t, spots[i], rebirths[i]);
          if next.Some? {
            keep := keep + [next.value];
          }
        }
        i := i + 1;
      }
      particles := keep;
      var j := 0;
      while |particles| < numParticles
        invariant j == |particles| - |keep| && 0 <= j && numParticles == old(numParticles)
        invariant j <= RefillCount(|keep|, numParticles)
        invariant particles == keep + newcomers[..j]
        decreases numParticles - |particles|
      {
        particles := particles + [newcomers[j]];
        j := j + 1;
      }
    }

    /**
     * `spawnParticlesAtMouse(numToSpawn)` with the `numToSpawn` new particles
     * given: append them, then trim the oldest when the pool exceeds three
     * times `numParticles`.
     */
    method SpawnParticlesAtMouse(spawned: seq<Particle>)
      modifies this
      ensures numParticles == old(numParticles)
      ensures particles == Trimmed(old(particles) + spawned, numParticles)
    {
      var i := 0;
      while i < |spawned|
        invariant 0 <= i <= |spawned|
        invariant particles == old(particles) + spawned[..i] && numParticles == old(numParticles)
      {
        particles := particles + [spawned[i]];
        i := i + 1;
      }
      assert spawned[..i] == spawned;
      if |particles| > numParticles * 3 {
        var cut := |particles| - numParticles * 2;
        particles := if cut >= |particles| then [] else particles[cut..];
      }
    }

    /** `resetParticles()`: reset every particle in place from its draws. */
    method ResetParticles(restarts: seq<Restart>)
      requires |restarts| == |particles|
      modifies this
      ensures numParticles == old(numParticles)
      ensures |particles| == |old(particles)|
      ensures forall i :: 0 <= i < |particles| ==> particles[i] == Reset(old(particles)[i], restarts[i])
    {
      var i := 0;
      while i < |particles|
        invariant 0 <= i <= |particles| == |old(particles)| && numParticles == old(numParticles)
        invariant forall k :: 0 <= k < i ==> particles[k] == Reset(old(particles)[k], restarts[k])
        invariant forall k :: i <= k < |particles| ==> particles[k] == old(particles)[k]
      {
        var p := particles[i];
        p := p.(x := restarts[i].x, y := restarts[i].y, trail := [], life := restarts[i].life, age := 0);
        particles := particles[i := p];
        i := i + 1;
      }
    }
  }

  /** Reset particles keep their colour and speed and lose their trail. */
  lemma ResetKeeps(p: Particle, r: Restart)
    ensures Reset(p, r).color == p.color && Reset(p, r).speed == p.speed
    ensures Reset(p, r).trail == [] && Reset(p, r).age == 0
  {
  }
}
