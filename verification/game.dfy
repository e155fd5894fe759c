/** The game's mutable state and the operations game.js runs on it, each
    proved to do to the state what the matching function of Rules describes. */
module Game {
  import opened Entities
  import opened Rules

  /** The module-level variables of game.js (`balls`, `particles`, `score`),
      and the source of the values Math.random() returns. */
  class World {
    var balls: seq<Ball>
    var particles: seq<Particle>
    var score: int
    /** How many Math.random() values have been used so far. */
    var draws: nat
    /** The values successive Math.random() calls return. */
    const random: nat -> Fraction

    /** Every particle in the game is live: it has life left, and its scale
        and opacity are its remaining fraction of life. */
    ghost predicate Valid()
      reads this
    {
      AllLive(particles)
    }

    function Snapshot(): State
      reads this
    {
      State(balls, particles, score, draws)
    }

    constructor (random: nat -> Fraction)
      ensures Valid() && Snapshot() == State([], [], 0, 0) && this.random == random
    {
      this.random := random;
      balls, particles, score, draws := [], [], 0, 0;
    }

    /** Math.random(). */
    method NextRandom() returns (u: Fraction)
      modifies this`draws
      ensures u == random(old(draws)) && draws == old(draws) + 1
    {
      u := random(draws);
      draws := draws + 1;
    }

    /** createBall: draws the tint, then the x and y jitter, and appends the ball. */
    method CreateBall(camera: Vec3, velocity: Vec3)
      requires Valid()
      modifies this`balls, this`draws
      ensures Valid()
      ensures Snapshot() == SpawnBall(old(Snapshot()), camera, velocity, random)
    {
      var tint := NextRandom();
      var ux := NextRandom();
      var uy := NextRandom();
      balls := balls + [Ball(SpawnPosition(camera, ux, uy), velocity, Tint(tint))];
    }

    /** createExplosion: appends ParticleCount particles at `position`, each
        drawing three random numbers for its velocity. */
    method CreateExplosion(position: Vec3, color: real)
      requires Valid()
      modifies this`particles, this`draws
      ensures Valid()
      ensures particles == old(particles) + Explosion(position, color, random, old(draws))
      ensures draws == old(draws) + BurstDraws
    {
      for i := 0 to ParticleCount
        invariant particles == old(particles) + Burst(position, color, random, old(draws), i)
        invariant draws == old(draws) + 3 * i
        invariant Valid()
      {
        var ux := NextRandom();
        var uy := NextRandom();
        var uz := NextRandom();
        particles := particles + [BurstParticle(position, color, ux, uy, uz)];
      }
    }

    /** updateParticles(deltaTime): walks the particles from the last to the
        first, ages each one and splices out those whose life ran out. */
    method UpdateParticles(dt: real)
      modifies this`particles
      ensures Valid()
      ensures particles == AgedParticles(old(particles), dt)
    {
      ghost var ps := particles;
      var i := |particles| - 1;
      while i >= 0
        invariant -1 <= i < |ps|
        invariant particles == ps[..i + 1] + AgedParticles(ps[i + 1..], dt)
      {
        var p := Age(particles[i], dt);
        assert particles[i] == ps[i];
        assert ps[i..][1..] == ps[i + 1..];
        assert ps[..i + 1] == ps[..i] + [ps[i]];
        if p.life <= 0.0 {
          particles := particles[..i] + particles[i + 1..];
        } else {
          particles := particles[i := p];
        }
        i := i - 1;
      }
      assert ps[0..] == ps;
      AgedParticlesLive(ps, dt);
    }

    /** updateBalls: walks the balls from the last to the first, moves each
        one and splices out those past FarZ. */
    method UpdateBalls()
      modifies this`balls
      ensures balls == MovedBalls(old(balls))
    {
      ghost var bs := balls;
      var i := |balls| - 1;
      while i >= 0
        invariant -1 <= i < |bs|
        invariant balls == bs[..i + 1] + MovedBalls(bs[i + 1..])
      {
        var b := Step(balls[i]);
        assert balls[i] == bs[i];
        assert bs[i..][1..] == bs[i + 1..];
        assert bs[..i + 1] == bs[..i] + [bs[i]];
        if b.position.z > FarZ {
          balls := balls[..i] + balls[i + 1..];
        } else {
          balls := balls[i := b];
        }
        i := i - 1;
      }
      assert bs[0..] == bs;
    }

    /** checkBallCollisions(collider): a forward forEach over the balls that
        splices out every ball it finds in reach, so the ball that moves into
        the freed index is not looked at by this call. */
    method CheckBallCollisions(collider: Collider)
      requires Valid()
      modifies this`balls, this`particles, this`score, this`draws
      ensures Valid()
      ensures Snapshot() == Collide(old(Snapshot()), collider, random)
    {
      ghost var start := Snapshot();
      ghost var bs := start.balls;
      // forEach visits the indices below the length the array had at the start
      // and skips those that no longer exist.
      var length := |balls|;
      var index := 0;
      // The original position of the ball at `index`.
      ghost var j: nat := 0;
      ghost var m := HitMarks(bs, collider);
      SweptStart(start, m, random);
      while index < length
        invariant j <= |bs| == |m|
        invariant Snapshot() == Swept(start, m, random, j)
        invariant j < |bs| ==> index == |KeptBefore(bs, m, j)| && (j == 0 || !m[j - 1])
        invariant j == |bs| ==> index >= |balls|
        invariant Valid()
      {
        assert |balls| == |KeptBefore(bs, m, j)| + (|bs| - j);
        if index < |balls| {
          var ball := balls[index];
          if Hit(collider, ball.position) {
            ghost var t := Snapshot();
            score := score + HitScore;
            CreateExplosion(ball.position, ball.color);
            balls := balls[..index] + balls[index + 1..];
            assert Snapshot() == t.(balls := t.balls[..index] + t.balls[index + 1..],
                                    particles := t.particles + Explosion(ball.position, ball.color, random, t.draws),
                                    score := t.score + HitScore, draws := t.draws + BurstDraws);
            j := SweepHit(start, collider, random, j, t, index);
          } else {
            SweepMiss(start, collider, random, j);
            j := j + 1;
          }
        }
        index := index + 1;
      }
      SweptEnd(start, collider, random);
    }

    /** checkControllerCollisions: runs checkBallCollisions for every collider
        of the frame, the controllers' first and then the fingertips'. */
    method CheckControllerCollisions(controller1: Vec3, controller2: Vec3, hands: Hands)
      requires Valid()
      modifies this`balls, this`particles, this`score, this`draws
      ensures Valid()
      ensures Snapshot() == CollideAll(old(Snapshot()), Colliders(controller1, controller2, hands), random)
    {
      var colliders := Colliders(controller1, controller2, hands);
      ghost var start := Snapshot();
      for k := 0 to |colliders|
        invariant Valid()
        invariant Snapshot() == CollideAll(start, colliders[..k], random)
      {
        assert colliders[..k + 1][..k] == colliders[..k];
        assert CollideAll(start, colliders[..k + 1], random)
            == Collide(CollideAll(start, colliders[..k], random), colliders[k], random);
        CheckBallCollisions(colliders[k]);
      }
      assert colliders[..|colliders|] == colliders;
    }

    /** One call of the animation loop: the spawn gate, then updateBalls,
        updateParticles(1/60) and the collisions; rendering is left out. */
    method AnimationFrame(input: FrameInput)
      requires Valid()
      modifies this`balls, this`particles, this`score, this`draws
      ensures Valid()
      ensures Snapshot() == FrameStep(old(Snapshot()), input, random)
    {
      if input.hasFrame {
        if input.hasSession {
          var gate := NextRandom();
          if gate < SpawnChance {
            CreateBall(input.camera, input.velocity);
          }
        }
      }
      assert Snapshot() == SpawnStep(old(Snapshot()), input, random);
      UpdateBalls();
      UpdateParticles(FrameDelta);
      CheckControllerCollisions(input.controller1, input.controller2, input.hands);
    }
  }
}
