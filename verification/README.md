# ar-catching: the per-frame entity lifecycle of `game.js`

`game.js` is the augmented-reality variant of a small "catch the ball" game.
Every animation frame it may spawn a ball in front of the camera. It then
moves every ball by its velocity and drops those that flew past `z = 2`. Next
it ages every explosion particle by 1/60 s and drops the expired ones.
Finally it checks the balls against spheres around the two controllers and,
when both hands are tracked, around each index fingertip. A ball that the pass
looks at and finds within reach is spliced out of `balls`, adds 10 to `score`
and bursts into 20 particles. The ball right after it is not looked at in that
pass (see "Behaviour worth knowing" below).

This project models that lifecycle and proves what it does:

- `entities.dfy` (module `Entities`): the values (balls, particles, colliders,
  vectors), the constants of `game.js` and the rules for one entity at a time.
  These are one move, one ageing step, the hit test, where a spawned ball goes
  and what an explosion particle looks like.
- `sequences.dfy` (module `Sequences`): the two ways the loops thin out a
  list. One maps every element and drops those failing a test. The other drops
  the elements a mask marks. Each comes with lemmas saying which elements
  survive, in which order. `Rounds` repeats the first over several frames.
- `rules.dfy` (module `Rules`): a snapshot `State` of the game (balls,
  particles, score, and how many `Math.random()` values have been used). Each
  operation of `game.js` is a function on that snapshot, with lemmas about
  what it keeps, removes, scores and adds.
- `game.dfy` (module `Game`): class `World` holds the module-level variables
  of `game.js` as fields. Its methods are the functions of `game.js`, written
  as the same loops (reverse splice loops, the forward `forEach` with
  `splice`, the particle loop of `createExplosion`). Each method is proved to
  leave the state that the matching function of `Rules` describes. Each also
  keeps the invariant that every particle is live: it has life left, and its
  scale and opacity equal `life / lifetime`.
- `lifetimes.dfy` (module `Lifetimes`): what happens over many frames. It
  covers when a ball leaves and how many frames an explosion particle lasts.

`random: nat -> Fraction` is the sequence of values in [0, 1) returned by the
`Math.random()` calls written in `game.js` itself: `random(k)` is the value of
the k-th such call, and `draws` counts how many of them have happened. These
calls come in source order: for `createBall`, the tint first, then the x and
y offsets; for each particle, the x, y and z of its velocity. Calls that
three.js makes internally are not counted (see "## Left out").

### Behaviour worth knowing

Removing the current element inside a forward `forEach` skips the element
that shifts into its index. `updateBalls` and `updateParticles` avoid this by
iterating backwards. `checkBallCollisions` does not: it runs `balls.forEach`
and splices the current ball out, so the ball that moves into the freed index
is never looked at in that pass. The model follows the code.
`Rules.HitMarks` marks a ball as removed exactly when it is in reach and the
ball before it was not removed. `Rules.RemovedThenNextSurvives` and
`Rules.CoincidentPairKeepsSecond` state the consequence.

Each particle velocity component is drawn independently from
[-0.05, 0.05), so particle speed is not constant (`Entities.BurstParticleAt`).

## Model

| member | source | states |
|---|---|---|
| Entities.HitMatchesDistance | game.js:134-136 | The hit test compares squared distances, which is equivalent to `distance < radius + 0.05`. A ball at exactly that distance is not hit, and a ball at the collider's centre always is. |
| Entities.SpawnPosition | game.js:82-90 | A new ball is 2 units in front of the camera (z = camera.z − 2), and within ±0.5 of the camera in x and y. |
| Entities.Tint | game.js:75 | A ball's tint is in [0, 0xffffff). |
| Entities.BurstParticle | game.js:173-196 | A new particle sits at the exploding ball's position with its colour. Its life and lifetime are both 1.0 and its scale is 1. Each velocity component is in [−0.05, 0.05). |
| Entities.BurstParticleAt | game.js:172-200 | Particle `i` of an explosion is live, at the ball's position and colour, with life = lifetime = 1.0. Its velocity is 0.1 × (u − 0.5) for the values u of game.js's own `Math.random()` calls `3i`, `3i+1` and `3i+2` counted from the explosion's first. |
| Entities.ExplosionParticles | game.js:172-200 | Every particle of an explosion is live, at the ball's position and colour, with life = lifetime = 1.0. |
| Rules.MovedBallsExactly | game.js:227-238 | updateBalls moves every ball by its velocity. It keeps a ball exactly when the new z is at most 2, and keeps the survivors in their original order. |
| Rules.AgedParticlesExactly | game.js:203-224 | updateParticles(dt) lowers every particle's life by exactly dt and moves it by its velocity. It removes a particle exactly when the new life is ≤ 0 and keeps the survivors in order. |
| Rules.AgedParticlesLive | game.js:210-221 | Every particle updateParticles keeps has positive life, and its scale and opacity equal life / lifetime. |
| Rules.HitMarksAt | game.js:133-143 | The forEach removes ball `i` exactly when it is in reach and ball `i − 1` was not removed (a removed ball shifts its successor into the visited index). |
| Rules.BurstsLive | game.js:172-200 | All particles the explosions of one pass add are live. |
| Rules.Collide | game.js:133-143 | One checkBallCollisions pass never adds balls. It adds 10 to the score and 20 particles per removed ball, leaves the earlier particles in place, and keeps every particle live. |
| Rules.SweptEnd | game.js:133-143 | After the forEach has visited every original position, the state is the one Collide describes. |
| Rules.SweepHit | game.js:134-141 | A ball in reach at the current index is spliced out of it. The score grows by 10 and its explosion is appended using the next 60 draws. The ball behind it is passed over. |
| Rules.SweepMiss | game.js:134-136 | A ball out of reach stays where it is, and nothing else changes. |
| Rules.RemovedThenNextSurvives | game.js:133-143 | The ball right after a removed ball survives the pass, even when it is in reach. |
| Rules.MissedBallSurvives | game.js:134-136 | A ball out of the collider's reach is never removed. |
| Rules.RemovedBallsWereHit | game.js:134-136 | Every removed ball was in the collider's reach. |
| Rules.CoincidentPairKeepsSecond | game.js:133-143 | Two balls exactly at a collider's centre: the first is removed and the second stays. The score rises by 10 and one explosion of 20 particles is added. |
| Rules.Colliders | game.js:102-130 | A frame checks the balls against 2 to 4 colliders. The two controllers come first, with radius 0.1. Then comes one of radius 0.05 centred at each tracked hand's index fingertip, where it exists, hand 1's before hand 2's, and only when both hands exist. |
| Rules.CollideAllAccounting | game.js:102-130 | Over all colliders of a frame, the score grows by exactly 10 and the particles by exactly 20 per removed ball. The score never decreases, earlier particles are untouched and all particles stay live. |
| Rules.SpawnBall | game.js:72-99 | createBall appends exactly one ball and leaves the earlier balls in place. The new ball is 2 in front of the camera and within ±0.5 sideways and vertically, with the given velocity and a tint in [0, 0xffffff). It uses three of game.js's own `Math.random()` calls. |
| Rules.SpawnStep | game.js:150-156 | A frame spawns one ball exactly when there is a frame, there is a session, and the gate draw is below 0.02; otherwise it spawns none. |
| Rules.FrameAccounting | game.js:148-164 | Across one frame: at most one ball appears, and the score never decreases. The score grows by 10 per ball the collisions removed. The particles are the survivors of ageing plus 20 per removed ball, and all are live. |
| Entities.Step | game.js:230 | Definition of one ball move (position += velocity); characterised over a whole update by Rules.MovedBallsExactly and over many frames by Lifetimes.TrajectoryPosition. |
| Entities.Age | game.js:208-216 | Definition of one particle update (move, life −= dt, scale = opacity = life / lifetime); characterised by Rules.AgedParticlesExactly and Lifetimes.ParticleFadesByDelta. |
| Entities.Hit | game.js:135-136 | Definition of the hit test on squared distances; characterised by Entities.HitMatchesDistance as the source's strict `distance < radius + 0.05`. |
| Entities.Burst | game.js:173-196 | The first n particles of an explosion, n of them; characterised by Entities.BurstParticleAt. |
| Entities.Explosion | game.js:172-200 | The 20 particles of createExplosion; characterised by Entities.BurstParticleAt and Entities.ExplosionParticles. |
| Rules.MovedBalls | game.js:227-238 | Definition of updateBalls on the ball list; characterised by Rules.MovedBallsExactly. |
| Rules.AgedParticles | game.js:203-224 | Definition of updateParticles(dt) on the particle list; characterised by Rules.AgedParticlesExactly and Rules.AgedParticlesLive. |
| Rules.Removals | game.js:134-141 | Which balls one forEach pass removes, given which are in reach, one mark per ball; characterised by Rules.RemovalsAt. |
| Rules.HitMarks | game.js:134-141 | The removal marks of one checkBallCollisions pass, one per ball; characterised by Rules.HitMarksAt. |
| Rules.CollideAll | game.js:102-130 | Definition of checkBallCollisions run for each collider in turn; characterised by Rules.CollideAllAccounting. |
| Rules.FrameStep | game.js:148-164 | Definition of one frame (spawn gate, updateBalls, updateParticles(1/60), collisions); characterised by Rules.FrameAccounting. |
| Game.World.NextRandom | game.js:154 | One `Math.random()` call of game.js: returns the next value of the stream and advances the count by one. |
| Game.World.constructor | game.js:7-9 | The game starts with no balls, no particles and score 0. |
| Game.World.CreateBall | game.js:72-99 | The method's effect is exactly SpawnBall on the snapshot. |
| Game.World.CreateExplosion | game.js:172-200 | The loop appends exactly the 20 particles of Explosion, in order, and makes 60 of game.js's own `Math.random()` calls. |
| Game.World.UpdateParticles | game.js:203-224 | The reverse splice loop leaves exactly AgedParticles(old particles, dt), and every particle is live. |
| Game.World.UpdateBalls | game.js:227-238 | The reverse splice loop leaves exactly MovedBalls(old balls). |
| Game.World.CheckBallCollisions | game.js:133-143 | The forward forEach with splice leaves exactly Collide(old state), skipped neighbours included. |
| Game.World.CheckControllerCollisions | game.js:102-130 | Running checkBallCollisions per collider in order leaves exactly CollideAll(old state, Colliders). |
| Game.World.AnimationFrame | game.js:148-164 | One animation frame (spawn gate, updateBalls, updateParticles(1/60), collisions) leaves exactly FrameStep(old state). |
| Lifetimes.TrajectoryPosition | game.js:227-231 | After n moves a ball is n velocities further on, with the same velocity and tint. |
| Lifetimes.BallLeavesAtFirstCrossing | game.js:227-238 | A lone ball survives n updateBalls calls exactly when its z stayed ≤ 2 after each move. It is removed by the first move that takes z past 2. |
| Lifetimes.ApproachingBallLeavesAtStep81 | game.js:227-238 | In exact arithmetic, a ball spawned at z = −2 flying at 0.05 per frame along +z is still there at z = 2 after 80 frames, and gone after 81 (in IEEE doubles it leaves one frame earlier; see "## Left out"). |
| Lifetimes.ParticleFadesByDelta | game.js:203-217 | After n updates of dt, a particle's life is n·dt lower and it has moved n velocities. Its scale and opacity are life / lifetime. |
| Lifetimes.ParticleRemovedAtFirstExpiry | game.js:203-224 | A lone particle survives n updates exactly when its life stayed positive after each of them. It is removed by the first update that brings its life to ≤ 0. |
| Lifetimes.BurstParticleLastsSixtyFrames | game.js:194-224 | In exact arithmetic, a fresh particle (life 1.0) updated by 1/60 per frame is still there with life 1/60 after 59 frames, and gone after 60. |

## Left out

- `init`, the window `resize` handler and `renderer.render`: scene setup and drawing only, with no effect on balls, particles or score.
- The DOM score text (`document.getElementById('score')`): display only; `score` itself is modelled.
- `scene.add` / `scene.remove`, geometries, materials, emissive settings and mesh scale vectors: only a ball's tint, and a particle's colour, scale and opacity, are modelled.
- Game.World.CreateBall: the velocity of a new ball (the ball-to-camera direction, towards the player, normalised, times 0.05) is an input of the frame, because normalisation needs a square root.
- Floating point: all arithmetic is on exact reals, so IEEE rounding (e.g. of `1/60`, of `position.add` and of `life -= deltaTime`) is not modelled. Frame counts are the exact-arithmetic ones.
- Lifetimes.ApproachingBallLeavesAtStep81: states the exact-real count. In IEEE doubles, adding 0.05 eighty times to −2 gives 2.000000000000002, which is above 2, so game.js drops this ball at the 80th updateBalls call, not the 81st.
- Lifetimes.BurstParticleLastsSixtyFrames: states the exact-real count. In doubles, 1.0 minus 1/60 sixty times is about −1.4e-15, so the particle is also removed at the 60th update.
- The `Math.random()` calls that three.js makes internally are not in the stream. Each geometry, material and mesh constructor draws four values for its `uuid`, so createBall and each explosion particle make 12 more calls than the model counts. The model's stream consists only of the calls written in game.js.
- The conversion of `Math.random() * 0xffffff` to a three.js `Color`: a ball's colour is that real number.
- `matrixWorld` and `setFromMatrixPosition`: controller and fingertip centres are inputs of the frame.
- `Math.random()` is an arbitrary fixed stream of values in [0, 1), not a random generator.
- The lazy creation of `userData.collider` spheres: only their radius and centre matter, and both are fixed at the moment of the hit test.
- `renderer.setAnimationLoop` scheduling: one call of its callback is `Game.World.AnimationFrame`.
