/** What each operation of game.js does to the game's state, as functions of
    a snapshot of that state, with the accounting facts that hold across them. */
module Rules {
  import opened Entities
  import opened Sequences

  /** The module-level state of game.js (balls, particles, score), together
      with the number of Math.random() values consumed so far. */
  datatype State = State(balls: seq<Ball>, particles: seq<Particle>, score: int, draws: nat)

  /** Tracked hands: absent, or two hands whose index fingertips may be missing. */
  datatype Hands = NoHands | Hands(tip1: Option<Vec3>, tip2: Option<Vec3>)

  /** What one animation frame reads from its surroundings: whether a frame
      and a session are present, the camera position, the velocity a new ball
      would get, and the controller and fingertip positions. */
  datatype FrameInput = FrameInput(hasFrame: bool, hasSession: bool, camera: Vec3, velocity: Vec3,
                                   controller1: Vec3, controller2: Vec3, hands: Hands)

  predicate AllLive(ps: seq<Particle>) {
    forall p :: p in ps ==> Live(p)
  }

  lemma {:induction false} AllLiveConcat(a: seq<Particle>, b: seq<Particle>)
    requires AllLive(a) && AllLive(b)
    ensures AllLive(a + b)
  {
  }

  // ---------------------------------------------------------------- updateBalls

  /** updateBalls: every ball moves by its velocity and those past FarZ are dropped. */
  function MovedBalls(bs: seq<Ball>): seq<Ball> {
    MapFilter(bs, Step, InBounds)
  }

  /** updateBalls keeps exactly the balls whose moved z is at most FarZ, moved,
      in their original order. */
  lemma {:induction false} MovedBallsExactly(bs: seq<Ball>)
    ensures var r, idx := MovedBalls(bs), KeptFrom(bs, Step, InBounds, 0);
      && |r| == |idx|
      && Increasing(idx)
      && (forall j :: 0 <= j < |idx| ==> r[j] == Step(bs[idx[j]]))
      && (forall i :: 0 <= i < |bs| ==> (bs[i].position.z + bs[i].velocity.z <= FarZ <==> i in idx))
  {
    var idx := KeptFrom(bs, Step, InBounds, 0);
    MapFilterSelects(bs, Step, InBounds, 0);
    forall i | 0 <= i < |bs|
      ensures bs[i].position.z + bs[i].velocity.z <= FarZ <==> i in idx
    {
      assert InBounds(Step(bs[i])) <==> 0 + i in idx;
    }
  }

  // ------------------------------------------------------------ updateParticles

  function Ager(dt: real): Particle -> Particle {
    p => Age(p, dt)
  }

  /** updateParticles(dt): every particle ages by `dt`; those out of life are dropped. */
  function AgedParticles(ps: seq<Particle>, dt: real): seq<Particle> {
    MapFilter(ps, Ager(dt), Alive)
  }

  /** updateParticles lowers every particle's life by exactly `dt`, moves it by
      its velocity, keeps it exactly when the new life is positive, keeps the
      survivors in order, and leaves each with scale == opacity == life/lifetime. */
  lemma {:induction false} AgedParticlesExactly(ps: seq<Particle>, dt: real)
    ensures var r, idx := AgedParticles(ps, dt), KeptFrom(ps, Ager(dt), Alive, 0);
      && |r| == |idx|
      && Increasing(idx)
      && (forall j :: 0 <= j < |idx| ==>
            && r[j].life == ps[idx[j]].life - dt
            && r[j].lifetime == ps[idx[j]].lifetime
            && r[j].position == Add(ps[idx[j]].position, ps[idx[j]].velocity))
      && (forall i :: 0 <= i < |ps| ==> (ps[i].life - dt > 0.0 <==> i in idx))
  {
    MapFilterSelects(ps, Ager(dt), Alive, 0);
    var idx := KeptFrom(ps, Ager(dt), Alive, 0);
    forall i | 0 <= i < |ps|
      ensures ps[i].life - dt > 0.0 <==> i in idx
    {
      assert Alive(Ager(dt)(ps[i])) <==> 0 + i in idx;
    }
  }

  /** Whatever particles updateParticles receives, every particle it keeps is
      live: its life is positive and its scale and opacity are life / lifetime. */
  lemma {:induction false} AgedParticlesLive(ps: seq<Particle>, dt: real)
    ensures AllLive(AgedParticles(ps, dt))
  {
    if ps != [] {
      AgedParticlesLive(ps[1..], dt);
      var q := Age(ps[0], dt);
      assert AgedParticles(ps, dt) == (if Alive(q) then [q] else []) + AgedParticles(ps[1..], dt);
    }
  }

  // -------------------------------------------------------- checkBallCollisions

  /** Which balls one forEach pass removes, given which are in reach: a ball
      is looked at unless the one before it was just removed (`skip`), because the
      splice shifts it into the index the pass has already visited. */
  function Removals(reach: seq<bool>, skip: bool): (m: seq<bool>)
    ensures |m| == |reach|
  {
    if reach == [] then []
    else
      var removed := !skip && reach[0];
      [removed] + Removals(reach[1..], removed)
  }

  lemma {:induction false} RemovalsAt(reach: seq<bool>, skip: bool, i: nat)
    requires i < |reach|
    ensures var m := Removals(reach, skip);
      m[i] == (!(if i == 0 then skip else m[i - 1]) && reach[i])
  {
    if i > 0 {
      RemovalsAt(reach[1..], !skip && reach[0], i - 1);
    }
  }

  /** Which balls are within the collider's reach. */
  function Reach(bs: seq<Ball>, c: Collider): (reach: seq<bool>)
    ensures |reach| == |bs|
  {
    seq(|bs|, i requires 0 <= i < |bs| => Hit(c, bs[i].position))
  }

  /** The balls one checkBallCollisions call removes, as marks. */
  function HitMarks(bs: seq<Ball>, c: Collider): (m: seq<bool>)
    ensures |m| == |bs|
  {
    Removals(Reach(bs, c), false)
  }

  /** Ball `i` is removed exactly when it is within reach of the collider and
      ball `i - 1` was not removed. So a removed ball is always in reach, and a
      ball in reach survives only when it directly follows a removed one. */
  lemma {:induction false} HitMarksAt(bs: seq<Ball>, c: Collider, i: nat)
    requires i < |bs|
    ensures var m := HitMarks(bs, c);
      m[i] <==> Hit(c, bs[i].position) && (i == 0 || !m[i - 1])
  {
    RemovalsAt(Reach(bs, c), false, i);
  }

  /** The particles of the explosions for `hits`, in order, the first one
      drawing its random numbers from draw number `cursor`. */
  function Bursts(hits: seq<Ball>, random: nat -> Fraction, cursor: nat): (ps: seq<Particle>)
    ensures |ps| == ParticleCount * |hits|
    decreases |hits|
  {
    if hits == [] then []
    else
      var n := |hits| - 1;
      Bursts(hits[..n], random, cursor) + Explosion(hits[n].position, hits[n].color, random, cursor + BurstDraws * n)
  }

  /** One more removed ball appends its explosion, drawn after those of the earlier ones. */
  lemma {:induction false} BurstsSnoc(hits: seq<Ball>, h: Ball, more: seq<Ball>, random: nat -> Fraction, cursor: nat)
    requires more == hits + [h]
    ensures Bursts(more, random, cursor)
         == Bursts(hits, random, cursor) + Explosion(h.position, h.color, random, cursor + BurstDraws * |hits|)
  {
    BurstsLast(more, |hits|, random, cursor);
    assert more[..|hits|] == hits;
    assert more[|hits|] == h;
    var e := Explosion(h.position, h.color, random, cursor + BurstDraws * |hits|);
    assert Explosion(more[|hits|].position, more[|hits|].color, random, cursor + BurstDraws * |hits|) == e;
    assert Bursts(more[..|hits|], random, cursor) == Bursts(hits, random, cursor);
  }

  /** Bursts unfolded at its last ball, whose index is `n`. */
  lemma {:induction false} BurstsLast(hits: seq<Ball>, n: nat, random: nat -> Fraction, cursor: nat)
    requires n + 1 == |hits|
    ensures Bursts(hits, random, cursor)
         == Bursts(hits[..n], random, cursor) + Explosion(hits[n].position, hits[n].color, random, cursor + BurstDraws * n)
  {
  }

  /** Every particle of an explosion starts live, with its full lifetime. */
  lemma {:induction false} BurstsLive(hits: seq<Ball>, random: nat -> Fraction, cursor: nat)
    ensures AllLive(Bursts(hits, random, cursor))
    decreases |hits|
  {
    if hits != [] {
      var n := |hits| - 1;
      var pre := Bursts(hits[..n], random, cursor);
      var e := Explosion(hits[n].position, hits[n].color, random, cursor + BurstDraws * n);
      ExplosionParticles(hits[n].position, hits[n].color, random, cursor + BurstDraws * n);
      BurstsLive(hits[..n], random, cursor);
      assert AllLive(e);
      AllLiveConcat(pre, e);
      assert Bursts(hits, random, cursor) == pre + e;
    }
  }

  /** checkBallCollisions(c): the marked balls are removed, each adds HitScore
      to the score and appends its explosion to the particles. */
  function Collide(s: State, c: Collider, random: nat -> Fraction): (r: State)
    ensures |r.balls| <= |s.balls|
    ensures r.score == s.score + HitScore * (|s.balls| - |r.balls|)
    ensures |r.particles| == |s.particles| + ParticleCount * (|s.balls| - |r.balls|)
    ensures r.particles[..|s.particles|] == s.particles
    ensures AllLive(s.particles) ==> AllLive(r.particles)
  {
    var m := HitMarks(s.balls, c);
    var hits := Select(s.balls, m, true);
    SelectPartition(s.balls, m);
    BurstsLive(hits, random, s.draws);
    State(Select(s.balls, m, false), s.particles + Bursts(hits, random, s.draws),
          s.score + HitScore * |hits|, s.draws + BurstDraws * |hits|)
  }

  /** The balls among the first `j` whose mark in `m` is clear. */
  function KeptBefore(bs: seq<Ball>, m: seq<bool>, j: nat): (kept: seq<Ball>)
    requires |m| == |bs| && j <= |bs|
    ensures |kept| <= j
  {
    Select(bs[..j], m[..j], false)
  }

  /** The balls among the first `j` whose mark in `m` is set. */
  function HitsBefore(bs: seq<Ball>, m: seq<bool>, j: nat): (hits: seq<Ball>)
    requires |m| == |bs| && j <= |bs|
    ensures |hits| <= j
  {
    Select(bs[..j], m[..j], true)
  }

  /** The state once the forEach of checkBallCollisions has dealt with the
      balls that started at positions below `j`, `m` marking those it removes:
      the removed ones are gone and have scored and exploded, in order; the
      rest of the list is untouched. */
  function Swept(s: State, m: seq<bool>, random: nat -> Fraction, j: nat): State
    requires |m| == |s.balls| && j <= |s.balls|
  {
    var hits := HitsBefore(s.balls, m, j);
    State(KeptBefore(s.balls, m, j) + s.balls[j..], s.particles + Bursts(hits, random, s.draws),
          s.score + HitScore * |hits|, s.draws + BurstDraws * |hits|)
  }

  /** Before the forEach looks at any ball, nothing has changed. */
  lemma {:induction false} SweptStart(s: State, m: seq<bool>, random: nat -> Fraction)
    requires |m| == |s.balls|
    ensures Swept(s, m, random, 0) == s
  {
    assert s.balls[0..] == s.balls;
  }

  /** Once the forEach has passed every ball, the state is the one Collide describes. */
  lemma {:induction false} SweptEnd(s: State, c: Collider, random: nat -> Fraction)
    ensures Swept(s, HitMarks(s.balls, c), random, |s.balls|) == Collide(s, c, random)
  {
    assert s.balls[..|s.balls|] == s.balls;
    assert HitMarks(s.balls, c)[..|s.balls|] == HitMarks(s.balls, c);
  }

  /** One step of the forEach of checkBallCollisions, at original position
      `j`, when the ball there is in reach: the ball at the current index is
      spliced out, scores HitScore and explodes with the next random draws, and
      the ball behind it (if any) shifts into the index and is passed over. */
  lemma {:induction false} SweepHit(s: State, c: Collider, random: nat -> Fraction, j: nat, t: State, k: nat) returns (j': nat)
    requires j < |s.balls| && Hit(c, s.balls[j].position)
    requires j == 0 || !HitMarks(s.balls, c)[j - 1]
    requires t == Swept(s, HitMarks(s.balls, c), random, j) && k == |KeptBefore(s.balls, HitMarks(s.balls, c), j)|
    ensures var bs, m := s.balls, HitMarks(s.balls, c);
      && j' == (if j + 1 < |bs| then j + 2 else j + 1)
      && k < |t.balls| && t.balls[k] == bs[j]
      && Swept(s, m, random, j')
         == t.(balls := t.balls[..k] + t.balls[k + 1..],
               particles := t.particles + Explosion(bs[j].position, bs[j].color, random, t.draws),
               score := t.score + HitScore, draws := t.draws + BurstDraws)
      && (j' < |bs| ==> |KeptBefore(bs, m, j')| == k + 1 && !m[j' - 1])
  {
    var m := HitMarks(s.balls, c);
    j' := SweepHitMarks(s.balls, c, j);
    SweptGrowsByHit(s, m, random, j, j');
    SweptLosesBall(s, m, random, j, j');
    var u := Swept(s, m, random, j');
    assert u == State(t.balls[..k] + t.balls[k + 1..],
                      t.particles + Explosion(s.balls[j].position, s.balls[j].color, random, t.draws),
                      t.score + HitScore, t.draws + BurstDraws);
  }

  /** When the balls removed among the first `j'` are those among the first
      `j` plus ball `j`, the later state has one more explosion and HitScore more. */
  lemma {:induction false} SweptGrowsByHit(s: State, m: seq<bool>, random: nat -> Fraction, j: nat, j': nat)
    requires |m| == |s.balls| && j < j' <= |s.balls|
    requires HitsBefore(s.balls, m, j') == HitsBefore(s.balls, m, j) + [s.balls[j]]
    ensures var t, u := Swept(s, m, random, j), Swept(s, m, random, j');
      && u.particles == t.particles + Explosion(s.balls[j].position, s.balls[j].color, random, t.draws)
      && u.score == t.score + HitScore && u.draws == t.draws + BurstDraws
  {
    var bs := s.balls;
    var hits, hits' := HitsBefore(bs, m, j), HitsBefore(bs, m, j');
    var t, u := Swept(s, m, random, j), Swept(s, m, random, j');
    var d := s.draws + BurstDraws * |hits|;
    var b, e := Bursts(hits, random, s.draws), Explosion(bs[j].position, bs[j].color, random, d);
    BurstsSnoc(hits, bs[j], hits', random, s.draws);
    assert u.particles == s.particles + Bursts(hits', random, s.draws);
    assert t.particles == s.particles + b && t.draws == d;
    assert s.particles + (b + e) == (s.particles + b) + e;
  }

  /** When the kept balls among the first `j'`, followed by the rest, are
      those among the first `j` followed by all after `j`, the later ball list
      is the earlier one with ball `j` spliced out of its index. */
  lemma {:induction false} SweptLosesBall(s: State, m: seq<bool>, random: nat -> Fraction, j: nat, j': nat)
    requires |m| == |s.balls| && j < j' <= |s.balls|
    requires KeptBefore(s.balls, m, j') + s.balls[j'..] == KeptBefore(s.balls, m, j) + s.balls[j + 1..]
    ensures var t, u, k := Swept(s, m, random, j), Swept(s, m, random, j'), |KeptBefore(s.balls, m, j)|;
      && k < |t.balls| && t.balls[k] == s.balls[j]
      && u.balls == t.balls[..k] + t.balls[k + 1..]
  {
    var bs, kept := s.balls, KeptBefore(s.balls, m, j);
    var t := Swept(s, m, random, j);
    assert bs[j..] == [bs[j]] + bs[j + 1..];
    assert t.balls[..|kept|] == kept && t.balls[|kept| + 1..] == bs[j + 1..];
  }

  /** SweepHit on the marks alone: the removed ball joins the hits, and the
      kept balls followed by those not yet looked at lose exactly that ball. */
  lemma {:induction false} SweepHitMarks(bs: seq<Ball>, c: Collider, j: nat) returns (j': nat)
    requires j < |bs| && Hit(c, bs[j].position)
    requires j == 0 || !HitMarks(bs, c)[j - 1]
    ensures var m := HitMarks(bs, c);
      && j' == (if j + 1 < |bs| then j + 2 else j + 1)
      && KeptBefore(bs, m, j') + bs[j'..] == KeptBefore(bs, m, j) + bs[j + 1..]
      && HitsBefore(bs, m, j') == HitsBefore(bs, m, j) + [bs[j]]
      && (j' < |bs| ==> |KeptBefore(bs, m, j')| == |KeptBefore(bs, m, j)| + 1 && !m[j' - 1])
  {
    var m := HitMarks(bs, c);
    HitMarksAt(bs, c, j);
    SelectSnoc(bs, m, false, j);
    SelectSnoc(bs, m, true, j);
    if j + 1 < |bs| {
      HitMarksAt(bs, c, j + 1);
      SelectSnoc(bs, m, false, j + 1);
      SelectSnoc(bs, m, true, j + 1);
      assert bs[j + 1..] == [bs[j + 1]] + bs[j + 2..];
      j' := j + 2;
    } else {
      j' := j + 1;
    }
  }

  /** One step of the forEach of checkBallCollisions, at original position
      `j`, when the ball there is out of reach: it stays, and nothing changes. */
  lemma {:induction false} SweepMiss(s: State, c: Collider, random: nat -> Fraction, j: nat)
    requires j < |s.balls| && !Hit(c, s.balls[j].position)
    ensures var bs, m := s.balls, HitMarks(s.balls, c);
      var t, k := Swept(s, m, random, j), |KeptBefore(bs, m, j)|;
      && k < |t.balls| && t.balls[k] == bs[j]
      && Swept(s, m, random, j + 1) == t
      && |KeptBefore(bs, m, j + 1)| == k + 1 && !m[j]
  {
    var bs, m := s.balls, HitMarks(s.balls, c);
    HitMarksAt(bs, c, j);
    SelectSnoc(bs, m, false, j);
    SelectSnoc(bs, m, true, j);
    var kept := KeptBefore(bs, m, j);
    assert KeptBefore(bs, m, j + 1) == kept + [bs[j]];
    assert bs[j..] == [bs[j]] + bs[j + 1..];
    assert Swept(s, m, random, j + 1).balls == Swept(s, m, random, j).balls;
    assert HitsBefore(bs, m, j + 1) == HitsBefore(bs, m, j);
  }

  /** The ball right after a removed one is not looked at again and survives the call. */
  lemma {:induction false} RemovedThenNextSurvives(s: State, c: Collider, random: nat -> Fraction, i: nat)
    requires i + 1 < |s.balls| && HitMarks(s.balls, c)[i]
    ensures s.balls[i + 1] in Collide(s, c, random).balls
  {
    var m := HitMarks(s.balls, c);
    HitMarksAt(s.balls, c, i + 1);
    SelectKeeps(s.balls, m, false, i + 1);
  }

  /** A ball out of the collider's reach is never removed. */
  lemma {:induction false} MissedBallSurvives(s: State, c: Collider, random: nat -> Fraction, i: nat)
    requires i < |s.balls| && !Hit(c, s.balls[i].position)
    ensures s.balls[i] in Collide(s, c, random).balls
  {
    HitMarksAt(s.balls, c, i);
    SelectKeeps(s.balls, HitMarks(s.balls, c), false, i);
  }

  /** Every removed ball was in the collider's reach. */
  lemma {:induction false} RemovedBallsWereHit(s: State, c: Collider, random: nat -> Fraction)
    ensures forall b :: b in Select(s.balls, HitMarks(s.balls, c), true) ==> Hit(c, b.position)
  {
    var m := HitMarks(s.balls, c);
    SelectMembers(s.balls, m, true);
    forall i | 0 <= i < |s.balls| && m[i]
      ensures Hit(c, s.balls[i].position)
    {
      HitMarksAt(s.balls, c, i);
    }
  }

  /** Two balls sitting exactly at a collider's centre: the pass removes the
      first, skips the second (which shifted into the visited index) and so
      leaves it, scoring HitScore once and adding one explosion. */
  lemma {:induction false} CoincidentPairKeepsSecond(s: State, c: Collider, random: nat -> Fraction)
    requires |s.balls| == 2 && s.balls[0].position == s.balls[1].position == c.center
    ensures var r := Collide(s, c, random);
      && r.balls == [s.balls[1]]
      && r.score == s.score + HitScore
      && r.particles == s.particles + Explosion(s.balls[0].position, s.balls[0].color, random, s.draws)
  {
    var bs, m := s.balls, HitMarks(s.balls, c);
    HitMarksAt(bs, c, 0);
    HitMarksAt(bs, c, 1);
    assert m == [true, false];
    assert bs[..1] == [bs[0]] && m[..1] == [true];
    assert Select(bs, m, false) == [bs[1]];
    assert Select(bs, m, true) == [bs[0]];
    BurstsLast([bs[0]], 0, random, s.draws);
  }

  // -------------------------------------------------- checkControllerCollisions

  function Tip(t: Option<Vec3>): seq<Collider> {
    if t.Some? then [Collider(t.value, FingertipRadius)] else []
  }

  /** The colliders of one frame: one of ControllerRadius per controller, then
      one of FingertipRadius per tracked hand whose index fingertip exists. */
  function Colliders(controller1: Vec3, controller2: Vec3, hands: Hands): (cs: seq<Collider>)
    ensures 2 <= |cs| <= 4
    ensures cs[0] == Collider(controller1, ControllerRadius) && cs[1] == Collider(controller2, ControllerRadius)
    ensures forall i :: 2 <= i < |cs| ==> cs[i].radius == FingertipRadius
    ensures hands.NoHands? ==> |cs| == 2
    ensures hands.Hands? ==> |cs| == 2 + (if hands.tip1.Some? then 1 else 0) + (if hands.tip2.Some? then 1 else 0)
    ensures hands.Hands? && hands.tip1.Some? ==> cs[2] == Collider(hands.tip1.value, FingertipRadius)
    ensures hands.Hands? && hands.tip2.Some? ==> cs[|cs| - 1] == Collider(hands.tip2.value, FingertipRadius)
  {
    [Collider(controller1, ControllerRadius), Collider(controller2, ControllerRadius)] +
    match hands
    case NoHands => []
    case Hands(t1, t2) => Tip(t1) + Tip(t2)
  }

  /** checkBallCollisions applied for each collider in turn. */
  function CollideAll(s: State, cs: seq<Collider>, random: nat -> Fraction): State
    decreases |cs|
  {
    if cs == [] then s
    else Collide(CollideAll(s, cs[..|cs| - 1], random), cs[|cs| - 1], random)
  }

  /** Over any number of colliders, the score grows by exactly HitScore and the
      particles by exactly ParticleCount per removed ball; the score never
      decreases and the particles present before are untouched. */
  lemma {:induction false} CollideAllAccounting(s: State, cs: seq<Collider>, random: nat -> Fraction)
    ensures var r := CollideAll(s, cs, random);
      && |r.balls| <= |s.balls|
      && r.score == s.score + HitScore * (|s.balls| - |r.balls|)
      && r.score >= s.score
      && |r.particles| == |s.particles| + ParticleCount * (|s.balls| - |r.balls|)
      && r.particles[..|s.particles|] == s.particles
      && (AllLive(s.particles) ==> AllLive(r.particles))
    decreases |cs|
  {
    if cs != [] {
      var mid := CollideAll(s, cs[..|cs| - 1], random);
      CollideAllAccounting(s, cs[..|cs| - 1], random);
      assert mid.particles[..|s.particles|] == s.particles;
      var r := Collide(mid, cs[|cs| - 1], random);
      assert r.particles[..|mid.particles|] == mid.particles;
      assert r.particles[..|s.particles|] == mid.particles[..|s.particles|];
    }
  }

  // ----------------------------------------------------------------- createBall

  /** createBall: draws a tint and two jitters and appends one ball. */
  function SpawnBall(s: State, camera: Vec3, velocity: Vec3, random: nat -> Fraction): (r: State)
    ensures |r.balls| == |s.balls| + 1 && r.balls[..|s.balls|] == s.balls
    ensures var b := r.balls[|s.balls|];
      && b.position.z == camera.z - SpawnDepth
      && camera.x - 0.5 <= b.position.x < camera.x + 0.5
      && camera.y - 0.5 <= b.position.y < camera.y + 0.5
      && b.velocity == velocity
      && 0.0 <= b.color < MaxTint
    ensures r.particles == s.particles && r.score == s.score && r.draws == s.draws + 3
  {
    var d := s.draws;
    var b := Ball(SpawnPosition(camera, random(d + 1), random(d + 2)), velocity, Tint(random(d)));
    s.(balls := s.balls + [b], draws := d + 3)
  }

  // -------------------------------------------------------------------- animate

  /** The spawn gate: with a frame and a session, one draw decides whether
      createBall runs (below SpawnChance). */
  function SpawnStep(s: State, input: FrameInput, random: nat -> Fraction): (r: State)
    ensures |r.balls| == |s.balls| +
        (if input.hasFrame && input.hasSession && random(s.draws) < SpawnChance then 1 else 0)
    ensures r.balls[..|s.balls|] == s.balls
    ensures r.particles == s.particles && r.score == s.score
  {
    if input.hasFrame && input.hasSession then
      var gate := random(s.draws);
      var s1 := s.(draws := s.draws + 1);
      if gate < SpawnChance then SpawnBall(s1, input.camera, input.velocity, random) else s1
    else s
  }

  /** One animation frame: spawn gate, updateBalls, updateParticles(1/60),
      then the collisions of every collider, in this order. */
  function FrameStep(s: State, input: FrameInput, random: nat -> Fraction): State {
    var spawned := SpawnStep(s, input, random);
    var moved := spawned.(balls := MovedBalls(spawned.balls));
    var aged := moved.(particles := AgedParticles(moved.particles, FrameDelta));
    CollideAll(aged, Colliders(input.controller1, input.controller2, input.hands), random)
  }

  /** Across a frame: at most one ball appears, the score never decreases and
      grows by HitScore for each ball the collisions removed, the particles
      grow by ParticleCount per such ball beyond the survivors of aging, and
      every particle stays live. */
  lemma {:induction false} FrameAccounting(s: State, input: FrameInput, random: nat -> Fraction)
    ensures var moved := MovedBalls(SpawnStep(s, input, random).balls);
            var r := FrameStep(s, input, random);
      && |r.balls| <= |moved| <= |s.balls| + 1
      && r.score == s.score + HitScore * (|moved| - |r.balls|)
      && r.score >= s.score
      && |r.particles| == |AgedParticles(s.particles, FrameDelta)| + ParticleCount * (|moved| - |r.balls|)
      && AllLive(r.particles)
  {
    var spawned := SpawnStep(s, input, random);
    var moved := spawned.(balls := MovedBalls(spawned.balls));
    var aged := moved.(particles := AgedParticles(moved.particles, FrameDelta));
    AgedParticlesLive(moved.particles, FrameDelta);
    assert |MovedBalls(spawned.balls)| <= |spawned.balls|;
    CollideAllAccounting(aged, Colliders(input.controller1, input.controller2, input.hands), random);
  }
}
