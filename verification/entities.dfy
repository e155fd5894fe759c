/** The values the game works with (balls, explosion particles, collider
    spheres and 3D vectors), the constants of game.js, and the rules that
    apply to one entity at a time. */
module Entities {

  datatype Option<T> = None | Some(value: T)

  /** A point or a displacement in scene coordinates (a THREE.Vector3). */
  datatype Vec3 = Vec3(x: real, y: real, z: real)

  /** A value returned by Math.random(): a real in [0, 1). */
  type Fraction = u: real | 0.0 <= u < 1.0

  /** A particle's total lifetime; game.js only ever uses 1.0, so it is never zero. */
  type Lifetime = t: real | t > 0.0 witness 1.0

  /** The radius of a collider sphere. */
  type Radius = r: real | r >= 0.0

  const ParticleCount: nat := 20          // PARTICLE_COUNT
  const BurstDraws: nat := 60             // Math.random() calls per explosion: 3 per particle
  const ParticleSpeed: real := 0.1        // spread of a particle's velocity
  const ParticleLifetime: Lifetime := 1.0 // seconds
  const ControllerRadius: Radius := 0.1
  const FingertipRadius: Radius := 0.05
  const Margin: real := 0.05              // ball radius added to every collider's
  const FarZ: real := 2.0                 // balls with a larger z are dropped
  const SpawnDepth: real := 2.0           // how far in front of the camera balls appear
  const SpawnChance: real := 0.02         // probability of a spawn per frame
  const HitScore: nat := 10
  const FrameDelta: real := 1.0 / 60.0    // the deltaTime passed to updateParticles
  const MaxTint: real := 16777215.0       // 0xffffff

  /** A target ball: position, per-frame velocity and the tint of its material. */
  datatype Ball = Ball(position: Vec3, velocity: Vec3, color: real)

  /** An explosion particle. `scale` is the mesh's uniform scale and `opacity`
      its material's opacity; both are reset from `life / lifetime` on every update. */
  datatype Particle = Particle(position: Vec3, velocity: Vec3, color: real,
                               lifetime: Lifetime, life: real, scale: real, opacity: real)

  /** A THREE.Sphere attached to a controller or an index fingertip. */
  datatype Collider = Collider(center: Vec3, radius: Radius)

  function Add(a: Vec3, b: Vec3): Vec3 {
    Vec3(a.x + b.x, a.y + b.y, a.z + b.z)
  }

  function Times(k: real, v: Vec3): Vec3 {
    Vec3(k * v.x, k * v.y, k * v.z)
  }

  function Sq(r: real): real { r * r }

  /** Squared Euclidean distance; the source compares the distance itself. */
  function DistSq(a: Vec3, b: Vec3): real {
    Sq(a.x - b.x) + Sq(a.y - b.y) + Sq(a.z - b.z)
  }

  /** One step of updateBalls for one ball: position += velocity. */
  function Step(b: Ball): Ball {
    b.(position := Add(b.position, b.velocity))
  }

  /** A ball that updateBalls keeps: its z has not gone past FarZ. */
  predicate InBounds(b: Ball) {
    b.position.z <= FarZ
  }

  /** One step of updateParticles for one particle: it moves by its velocity,
      loses `dt` of life, and its scale and opacity become `life / lifetime`. */
  function Age(p: Particle, dt: real): Particle {
    var life := p.life - dt;
    var scale := life / p.lifetime;
    p.(position := Add(p.position, p.velocity), life := life, scale := scale, opacity := scale)
  }

  /** A particle that updateParticles keeps. */
  predicate Alive(p: Particle) {
    p.life > 0.0
  }

  /** What holds of every particle in the game between frames: it has life
      left, and its scale and opacity are its remaining fraction of life. */
  predicate Live(p: Particle) {
    p.life > 0.0 && p.scale == p.life / p.lifetime && p.opacity == p.scale
  }

  /** The hit test of checkBallCollisions: the distance from the collider's
      centre to the ball is strictly below the collider's radius plus Margin.
      Both sides are non-negative, so squaring them keeps the comparison. */
  predicate Hit(c: Collider, p: Vec3) {
    DistSq(c.center, p) < Sq(c.radius + Margin)
  }

  /** The squared comparison is the source's comparison of distances: for the
      true distance `d`, a hit is exactly `d < radius + Margin`. So a ball at
      exactly that distance is not hit and a ball at the centre always is. */
  lemma {:induction false} HitMatchesDistance(c: Collider, p: Vec3, d: real)
    requires d >= 0.0 && Sq(d) == DistSq(c.center, p)
    ensures Hit(c, p) <==> d < c.radius + Margin
    ensures d == c.radius + Margin ==> !Hit(c, p)
    ensures d == 0.0 ==> Hit(c, p)
  {
    var t := c.radius + Margin;
    assert t > 0.0;
    if d < t {
      assert d * d <= d * t;
      assert d * t < t * t;
    } else {
      assert d * d >= t * d;
      assert t * d >= t * t;
    }
  }

  /** Where createBall puts a new ball: SpawnDepth in front of the camera
      (towards -z) and within half a unit of it sideways and vertically. */
  function SpawnPosition(camera: Vec3, ux: Fraction, uy: Fraction): (p: Vec3)
    ensures p.z == camera.z - SpawnDepth
    ensures camera.x - 0.5 <= p.x < camera.x + 0.5
    ensures camera.y - 0.5 <= p.y < camera.y + 0.5
  {
    Vec3(camera.x + (ux - 0.5), camera.y + (uy - 0.5), camera.z - SpawnDepth)
  }

  /** The colour number createBall hands to its material. */
  function Tint(u: Fraction): (c: real)
    ensures 0.0 <= c < MaxTint
  {
    u * MaxTint
  }

  /** A particle of an explosion, from three random draws for its velocity. */
  function BurstParticle(position: Vec3, color: real, ux: Fraction, uy: Fraction, uz: Fraction): (p: Particle)
    ensures Live(p) && p.life == p.lifetime == ParticleLifetime && p.scale == 1.0
    ensures p.position == position && p.color == color
    ensures -ParticleSpeed / 2.0 <= p.velocity.x < ParticleSpeed / 2.0
    ensures -ParticleSpeed / 2.0 <= p.velocity.y < ParticleSpeed / 2.0
    ensures -ParticleSpeed / 2.0 <= p.velocity.z < ParticleSpeed / 2.0
  {
    var v := Vec3((ux - 0.5) * ParticleSpeed, (uy - 0.5) * ParticleSpeed, (uz - 0.5) * ParticleSpeed);
    Particle(position, v, color, ParticleLifetime, ParticleLifetime, 1.0, 1.0)
  }

  /** The first `n` particles createExplosion makes, the one at index `i`
      drawing its three random numbers at draw numbers `cursor + 3i` onwards. */
  function Burst(position: Vec3, color: real, random: nat -> Fraction, cursor: nat, n: nat): (ps: seq<Particle>)
    ensures |ps| == n
  {
    if n == 0 then []
    else
      var d := cursor + 3 * (n - 1);
      Burst(position, color, random, cursor, n - 1) + [BurstParticle(position, color, random(d), random(d + 1), random(d + 2))]
  }

  /** The particles of createExplosion: ParticleCount of them, drawing three
      random numbers each starting at draw number `cursor`. */
  function Explosion(position: Vec3, color: real, random: nat -> Fraction, cursor: nat): (ps: seq<Particle>)
    ensures |ps| == ParticleCount
  {
    Burst(position, color, random, cursor, ParticleCount)
  }

  /** Particle `i` of a burst starts live at the exploding ball's position and
      colour, with life and lifetime both ParticleLifetime, and its velocity
      is draws `cursor + 3i` to `cursor + 3i + 2`, each shifted to [-0.5, 0.5)
      and scaled by ParticleSpeed. */
  lemma {:induction false} BurstParticleAt(position: Vec3, color: real, random: nat -> Fraction, cursor: nat, n: nat, i: nat)
    requires i < n
    ensures var p := Burst(position, color, random, cursor, n)[i];
      && Live(p) && p.position == position && p.color == color
      && p.life == p.lifetime == ParticleLifetime
      && p.velocity == Times(ParticleSpeed, Vec3(random(cursor + 3 * i) - 0.5,
                                                random(cursor + 3 * i + 1) - 0.5,
                                                random(cursor + 3 * i + 2) - 0.5))
  {
    var pre := Burst(position, color, random, cursor, n - 1);
    var d := cursor + 3 * (n - 1);
    var last := BurstParticle(position, color, random(d), random(d + 1), random(d + 2));
    assert Burst(position, color, random, cursor, n) == pre + [last];
    if i < n - 1 {
      BurstParticleAt(position, color, random, cursor, n - 1, i);
      assert Burst(position, color, random, cursor, n)[i] == pre[i];
    } else {
      assert Burst(position, color, random, cursor, n)[i] == last;
    }
  }

  /** Every particle of an explosion starts live at the exploding ball's
      position and colour, with life and lifetime both ParticleLifetime. */
  lemma {:induction false} ExplosionParticles(position: Vec3, color: real, random: nat -> Fraction, cursor: nat)
    ensures forall p :: p in Explosion(position, color, random, cursor) ==>
      Live(p) && p.position == position && p.color == color && p.life == p.lifetime == ParticleLifetime
  {
    var ps := Burst(position, color, random, cursor, ParticleCount);
    forall p | p in ps
      ensures Live(p) && p.position == position && p.color == color && p.life == p.lifetime == ParticleLifetime
    {
      var i :| 0 <= i < |ps| && ps[i] == p;
      BurstParticleAt(position, color, random, cursor, ParticleCount, i);
    }
  }
}
