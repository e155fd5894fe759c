/** How long a ball and a particle live when the frame loop runs repeatedly:
    `Rounds(bs, Step, InBounds, n)` is the ball list after `n` calls of
    updateBalls (MovedBalls applied `n` times), and
    `Rounds(ps, Ager(dt), Alive, n)` the particle list after `n` calls of
    updateParticles(dt). */
module Lifetimes {
  import opened Entities
  import opened Sequences
  import opened Rules

  /** The z a ball reaches after `k` moves. */
  function ZAfter(b: Ball, k: nat): real {
    b.position.z + k as real * b.velocity.z
  }

  /** The life a particle has left after `k` updates of `dt`. */
  function LifeAfter(p: Particle, dt: real, k: nat): real {
    p.life - k as real * dt
  }

  /** After `n` steps a ball has moved by `n` times its velocity and kept its
      velocity and tint. */
  lemma {:induction false} TrajectoryPosition(b: Ball, n: nat)
    ensures Iterate(Step, b, n) == b.(position := Add(b.position, Times(n as real, b.velocity)))
  {
    if n > 0 {
      TrajectoryPosition(b, n - 1);
    }
  }

  /** A lone ball survives `n` calls of updateBalls exactly when its z stayed
      at most FarZ after each of the first `n` moves, and is then `n`
      velocities further on; it is gone from the first call whose move takes
      z past FarZ. */
  lemma {:induction false} BallLeavesAtFirstCrossing(b: Ball, n: nat)
    ensures (forall k: nat :: 1 <= k <= n ==> ZAfter(b, k) <= FarZ) ==>
      Rounds([b], Step, InBounds, n) == [b.(position := Add(b.position, Times(n as real, b.velocity)))]
    ensures (exists k: nat :: 1 <= k <= n && ZAfter(b, k) > FarZ) ==>
      Rounds([b], Step, InBounds, n) == []
  {
    RoundsOfOne(b, Step, InBounds, n);
    TrajectoryPosition(b, n);
    forall k: nat | 1 <= k <= n
      ensures InBounds(Iterate(Step, b, k)) <==> ZAfter(b, k) <= FarZ
    {
      TrajectoryPosition(b, k);
    }
    if exists k: nat :: 1 <= k <= n && ZAfter(b, k) > FarZ {
      var k: nat :| 1 <= k <= n && ZAfter(b, k) > FarZ;
      assert !InBounds(Iterate(Step, b, k));
    }
  }

  /** A ball spawned SpawnDepth in front of a camera at the origin and flying
      straight at it at 0.05 per frame (the speed createBall gives) is, in
      exact arithmetic, still there, at z == FarZ, after 80 calls of
      updateBalls and gone after 81. */
  lemma {:induction false} ApproachingBallLeavesAtStep81(color: real)
    ensures var b := Ball(Vec3(0.0, 0.0, -SpawnDepth), Vec3(0.0, 0.0, 0.05), color);
      && Rounds([b], Step, InBounds, 80) == [Ball(Vec3(0.0, 0.0, FarZ), b.velocity, color)]
      && Rounds([b], Step, InBounds, 81) == []
  {
    var b := Ball(Vec3(0.0, 0.0, -SpawnDepth), Vec3(0.0, 0.0, 0.05), color);
    BallLeavesAtFirstCrossing(b, 80);
    BallLeavesAtFirstCrossing(b, 81);
    assert ZAfter(b, 81) > FarZ;
  }

  /** After `n` calls of updateParticles(dt) a particle's life is `n * dt`
      lower, it has moved `n` velocities, and (once aged at all) its scale
      and opacity are its remaining fraction of life. */
  lemma {:induction false} ParticleFadesByDelta(p: Particle, dt: real, n: nat)
    ensures var q := Iterate(Ager(dt), p, n);
      && q.life == p.life - n as real * dt
      && q.lifetime == p.lifetime && q.velocity == p.velocity && q.color == p.color
      && q.position == Add(p.position, Times(n as real, p.velocity))
      && (n > 0 ==> q.scale == q.opacity == q.life / q.lifetime)
  {
    if n > 0 {
      ParticleFadesByDelta(p, dt, n - 1);
    }
  }

  /** A lone particle survives `n` calls of updateParticles(dt) exactly when
      its life stayed positive after each of them; it is removed by the first
      call that brings its life to zero or below. */
  lemma {:induction false} ParticleRemovedAtFirstExpiry(p: Particle, dt: real, n: nat)
    ensures (forall k: nat :: 1 <= k <= n ==> LifeAfter(p, dt, k) > 0.0) ==>
      Rounds([p], Ager(dt), Alive, n) == [Iterate(Ager(dt), p, n)]
    ensures (exists k: nat :: 1 <= k <= n && LifeAfter(p, dt, k) <= 0.0) ==>
      Rounds([p], Ager(dt), Alive, n) == []
  {
    RoundsOfOne(p, Ager(dt), Alive, n);
    forall k: nat | 1 <= k <= n
      ensures Alive(Iterate(Ager(dt), p, k)) <==> LifeAfter(p, dt, k) > 0.0
    {
      ParticleFadesByDelta(p, dt, k);
    }
    if exists k: nat :: 1 <= k <= n && LifeAfter(p, dt, k) <= 0.0 {
      var k: nat :| 1 <= k <= n && LifeAfter(p, dt, k) <= 0.0;
      assert !Alive(Iterate(Ager(dt), p, k));
    }
  }

  /** An explosion particle (full life of ParticleLifetime) updated once per
      frame with FrameDelta is, in exact arithmetic, still there, with 1/60
      of its life left, after 59 frames and gone after 60. */
  lemma {:induction false} BurstParticleLastsSixtyFrames(p: Particle)
    requires p.life == ParticleLifetime
    ensures var ps := Rounds([p], Ager(FrameDelta), Alive, 59);
      |ps| == 1 && ps[0].life == FrameDelta && ps[0].opacity == FrameDelta / p.lifetime
    ensures Rounds([p], Ager(FrameDelta), Alive, 60) == []
  {
    ParticleRemovedAtFirstExpiry(p, FrameDelta, 59);
    ParticleRemovedAtFirstExpiry(p, FrameDelta, 60);
    ParticleFadesByDelta(p, FrameDelta, 59);
    assert LifeAfter(p, FrameDelta, 60) <= 0.0;
  }
}
