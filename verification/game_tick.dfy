/** One tick of the game (`update(delta)`) as a function of the game state.
    The tick runs its phases in a fixed order -- physics, obstacle spawn,
    obstacle pass, crown spawn, crown pass, label pass -- and then either ends
    the run on a fatal collision or adds the survival score and recomputes the
    background stage. */
module GameTick {
  import opened JsMath
  import opened Sweeping
  import opened GameRules

  /** The game's module state, as one value. */
  datatype World = World(
    player: Player,
    obstacles: seq<Obstacle>,
    spawnTimer: real,
    score: real,
    highScore: int,
    crowns: seq<Crown>,
    crownSpawnTimer: real,
    floatingTexts: seq<FloatingText>,
    running: bool,
    rafId: Option<nat>,
    lastTime: real,
    lastBgStage: int)

  function PhysicsPhase(w: World, delta: real): World
  {
    w.(player := Fall(w.player, delta))
  }

  function ObstacleSpawnPhase(w: World, delta: real, r: Draws): World
  {
    var timer := w.spawnTimer - delta;
    if timer <= 0.0 then
      w.(spawnTimer := SpawnInterval(w.score) as real,
         obstacles := w.obstacles + [NewObstacle(r.obstacleHeight, r.obstacleSide)])
    else w.(spawnTimer := timer)
  }

  function ObstaclePhase(w: World, dist: real): World
  {
    w.(obstacles := Sweep(w.obstacles, dist, MoveObstacle, ObstacleFate).kept)
  }

  function CrownSpawnPhase(w: World, delta: real, r: Draws): World
  {
    var timer := w.crownSpawnTimer - delta;
    if timer <= 0.0 then
      w.(crownSpawnTimer := CrownInterval(r.crownInterval) as real, crowns := w.crowns + [NewCrown(r.crownY)])
    else w.(crownSpawnTimer := timer)
  }

  function CrownPhase(w: World, dist: real): World
  {
    var swept := Sweep(w.crowns, CrownPass(w.player, dist), MoveCrown, CrownFate);
    w.(crowns := swept.kept,
       score := w.score + 5.0 * |swept.taken| as real,
       floatingTexts := w.floatingTexts + PickupTexts(swept.taken))
  }

  function TextPhase(w: World, delta: real): World
  {
    w.(floatingTexts := Sweep(w.floatingTexts, delta, DecayText, TextFate).kept)
  }

  /** The crown pass only appends labels, one per collected crown, adds exactly
      5 points for each, and removes at least as many crowns as it collects. */
  lemma CrownPhasePickups(w: World, dist: real)
    ensures |CrownPhase(w, dist).floatingTexts| >= |w.floatingTexts|
    ensures CrownPhase(w, dist).floatingTexts[..|w.floatingTexts|] == w.floatingTexts
    ensures CrownPhase(w, dist).score ==
      w.score + 5.0 * (|CrownPhase(w, dist).floatingTexts| - |w.floatingTexts|) as real
    ensures |CrownPhase(w, dist).crowns| + (|CrownPhase(w, dist).floatingTexts| - |w.floatingTexts|) <= |w.crowns|
  {
    var sw := Sweep(w.crowns, CrownPass(w.player, dist), MoveCrown, CrownFate);
    assert CrownPhase(w, dist).floatingTexts == w.floatingTexts + PickupTexts(sw.taken);
  }

  /** Crown `c` is some crown of `cs` moved by `dist`, and the pass collects it:
      it is still on screen and touches player `p`. */
  ghost predicate CollectedFrom(c: Crown, cs: seq<Crown>, p: Player, dist: real)
  {
    CrownFate(c, CrownPass(p, dist)) == Take &&
    exists j :: 0 <= j < |cs| && c == MoveCrown(cs[j], CrownPass(p, dist))
  }

  /** Every crown the pass collects is one of its input crowns, moved, and touched. */
  lemma TakenCollected(cs: seq<Crown>, p: Player, dist: real)
    ensures forall i :: 0 <= i < |Sweep(cs, CrownPass(p, dist), MoveCrown, CrownFate).taken| ==>
      CollectedFrom(Sweep(cs, CrownPass(p, dist), MoveCrown, CrownFate).taken[i], cs, p, dist)
  {
    var cp := CrownPass(p, dist);
    var taken := Sweep(cs, cp, MoveCrown, CrownFate).taken;
    SweepFates(cs, 0, cp, MoveCrown, CrownFate);
    TakenInReverseOrder(cs, 0, cp, MoveCrown, CrownFate);
    var take := Picked(cs, 0, cp, MoveCrown, CrownFate, Take);
    forall i | 0 <= i < |taken|
      ensures CollectedFrom(taken[i], cs, p, dist)
    {
      var j := take[|take| - 1 - i];
      assert taken[i] == MoveCrown(cs[j], cp);
    }
  }

  /** Every label the crown pass adds reads "+5", lives 60 frames and is the
      pickup label of a crown the pass collected. */
  lemma CrownPhaseLabels(w: World, dist: real)
    ensures forall k :: |w.floatingTexts| <= k < |CrownPhase(w, dist).floatingTexts| ==>
      CrownPhase(w, dist).floatingTexts[k].text == "+5" && CrownPhase(w, dist).floatingTexts[k].ttl == 60.0 &&
      exists c :: CollectedFrom(c, w.crowns, w.player, dist) && CrownPhase(w, dist).floatingTexts[k] == PickupText(c)
  {
    var taken := Sweep(w.crowns, CrownPass(w.player, dist), MoveCrown, CrownFate).taken;
    var texts := PickupTexts(taken);
    var m := CrownPhase(w, dist);
    var n := |w.floatingTexts|;
    assert m.floatingTexts == w.floatingTexts + texts;
    PickupTextsSpec(taken);
    TakenCollected(w.crowns, w.player, dist);
    forall k | n <= k < |m.floatingTexts|
      ensures exists c :: CollectedFrom(c, w.crowns, w.player, dist) && m.floatingTexts[k] == PickupText(c)
    {
      assert m.floatingTexts[k] == texts[k - n] == PickupText(taken[k - n]);
      assert CollectedFrom(taken[k - n], w.crowns, w.player, dist);
    }
  }

  /** How far obstacles and crowns move in a tick: speed times elapsed frames. */
  function Travel(score: real, delta: real): real
  {
    ObstacleSpeed(score) as real * delta
  }

  /** The state just before the fatal-collision test. */
  function Moved(w: World, delta: real, r: Draws): World
  {
    var dist := Travel(w.score, delta);
    var w1 := ObstacleSpawnPhase(PhysicsPhase(w, delta), delta, r);
    TextPhase(CrownPhase(CrownSpawnPhase(ObstaclePhase(w1, dist), delta, r), dist), delta)
  }

  predicate Collides(p: Player, obstacles: seq<Obstacle>)
  {
    exists o :: o in obstacles && HitsObstacle(p, o)
  }

  /** A fatal collision: the run stops and the best score is updated. */
  function GameOverPhase(w: World): World
  {
    w.(running := false, rafId := None, highScore := HighScoreAfter(w.highScore, w.score))
  }

  /** Survival score, then the background stage check. */
  function SurvivalPhase(w: World, delta: real): World
  {
    var score := w.score + 0.01 * delta;
    var stage := StageIndex(score);
    if stage == w.lastBgStage then w.(score := score)
    else w.(score := score, lastBgStage := stage)
  }

  function Tick(w: World, delta: real, r: Draws): World
  {
    var m := Moved(w, delta, r);
    if Collides(m.player, m.obstacles) then GameOverPhase(m) else SurvivalPhase(m, delta)
  }

  /** The fatal branch: the run stops, the best score is raised to `floor(score)`
      only when the score beats it, and neither the survival increment nor the
      stage check happens. */
  lemma TickGameOver(w: World, delta: real, r: Draws)
    requires var m := Moved(w, delta, r); Collides(m.player, m.obstacles)
    ensures var m := Moved(w, delta, r); var t := Tick(w, delta, r);
      !t.running && t.rafId == None &&
      t.score == m.score && t.lastBgStage == w.lastBgStage &&
      (m.score > w.highScore as real ==> t.highScore == m.score.Floor) &&
      (m.score <= w.highScore as real ==> t.highScore == w.highScore)
  {
  }

  /** The surviving branch: run control and best score are untouched, the score
      grows by `0.01 * delta`, and `lastBgStage` becomes the new stage index. */
  lemma TickSurvives(w: World, delta: real, r: Draws)
    requires var m := Moved(w, delta, r); !Collides(m.player, m.obstacles)
    ensures var m := Moved(w, delta, r); var t := Tick(w, delta, r);
      t.running == w.running && t.rafId == w.rafId && t.highScore == w.highScore &&
      t.score == m.score + 0.01 * delta &&
      t.lastBgStage == StageIndex(t.score)
  {
  }

  /** The best score never decreases. */
  lemma TickHighScore(w: World, delta: real, r: Draws)
    ensures Tick(w, delta, r).highScore >= w.highScore
  {
  }

  /** Collecting crowns only adds to the score, so with a non-negative time step
      the score never decreases. */
  lemma TickScoreMonotone(w: World, delta: real, r: Draws)
    requires delta >= 0.0
    ensures Tick(w, delta, r).score >= w.score
  {
    var m := Moved(w, delta, r);
    assert m.score >= w.score;
  }

  /** Obstacles and crowns move left at least `ObstacleSpeedBase` pixels per
      elapsed frame once the score is non-negative. */
  lemma TravelAtLeast(score: real, delta: real)
    requires score >= 0.0 && delta >= 0.0
    ensures Travel(score, delta) >= ObstacleSpeedBase as real * delta
  {
    var v := ObstacleSpeed(score) as real;
    assert v * delta == ObstacleSpeedBase as real * delta + (v - ObstacleSpeedBase as real) * delta;
    assert (v - ObstacleSpeedBase as real) * delta >= 0.0;
  }

  /** The obstacles after a tick are, in order, those present after the spawn
      step that the tick's pass keeps, each moved left by the tick's travel;
      chained over ticks this is `ObstacleSurvives`. */
  lemma TickObstaclesAdvance(w: World, delta: real, r: Draws)
    ensures var s := ObstacleSpawnPhase(PhysicsPhase(w, delta), delta, r).obstacles;
      var dist := Travel(w.score, delta);
      var os := Tick(w, delta, r).obstacles;
      var ix := Picked(s, 0, dist, MoveObstacle, ObstacleFate, Keep);
      |os| == |ix| && Ascending(ix) &&
      forall k :: 0 <= k < |os| ==>
        os[k] == MoveObstacle(s[ix[k]], dist) && ObstacleSurvives(s[ix[k]], [dist])
  {
    var s := ObstacleSpawnPhase(PhysicsPhase(w, delta), delta, r).obstacles;
    var dist := Travel(w.score, delta);
    ObstaclePassSpec(s, dist);
    assert Tick(w, delta, r).obstacles == Sweep(s, dist, MoveObstacle, ObstacleFate).kept;
  }

  /** Every obstacle still reaches the retirement edge. */
  predicate ObstaclesOnScreen(os: seq<Obstacle>)
  {
    forall k :: 0 <= k < |os| ==> os[k].x + os[k].w >= RetireEdge
  }

  /** Every crown still reaches the retirement edge. */
  predicate CrownsOnScreen(cs: seq<Crown>)
  {
    forall k :: 0 <= k < |cs| ==> cs[k].x + cs[k].w >= RetireEdge
  }

  /** Every label still has time to live. */
  predicate TextsAlive(ts: seq<FloatingText>)
  {
    forall k :: 0 <= k < |ts| ==> ts[k].ttl > 0.0
  }

  /** What holds after every tick: the player is at or above the ground, every
      obstacle and crown is on screen, every label still has time to live, the
      score is not negative and the stage is 0 or 1 or still the initial -1. */
  ghost predicate Settled(w: World)
  {
    w.player.y <= GroundY(w.player) &&
    ObstaclesOnScreen(w.obstacles) && CrownsOnScreen(w.crowns) && TextsAlive(w.floatingTexts) &&
    w.score >= 0.0 && -1 <= w.lastBgStage <= 1
  }

  /** The entity lists of the state before the collision test are settled. */
  lemma MovedSettles(w: World, delta: real, r: Draws)
    ensures var m := Moved(w, delta, r);
      m.player.y <= GroundY(m.player) &&
      ObstaclesOnScreen(m.obstacles) && CrownsOnScreen(m.crowns) && TextsAlive(m.floatingTexts)
  {
    var dist := Travel(w.score, delta);
    var w1 := ObstacleSpawnPhase(PhysicsPhase(w, delta), delta, r);
    var w2 := CrownSpawnPhase(ObstaclePhase(w1, dist), delta, r);
    var w3 := CrownPhase(w2, dist);
    var m := TextPhase(w3, delta);
    assert m.player == w1.player && GroundY(m.player) == GroundY(w.player);
    assert ObstaclesOnScreen(m.obstacles) by {
      ObstaclePassSpec(w1.obstacles, dist);
      assert m.obstacles == Sweep(w1.obstacles, dist, MoveObstacle, ObstacleFate).kept;
    }
    assert CrownsOnScreen(m.crowns) by {
      CrownPassSpec(w2.crowns, w2.player, dist);
      assert m.crowns == Sweep(w2.crowns, CrownPass(w2.player, dist), MoveCrown, CrownFate).kept;
    }
    assert TextsAlive(m.floatingTexts) by {
      TextPassSpec(w3.floatingTexts, delta);
    }
  }

  /** Every tick from a state with a non-negative score and a valid stage, with a
      non-negative time step, ends settled -- whether or not the run ended. */
  lemma TickSettles(w: World, delta: real, r: Draws)
    requires w.score >= 0.0 && delta >= 0.0 && -1 <= w.lastBgStage <= 1
    ensures Settled(Tick(w, delta, r))
  {
    MovedSettles(w, delta, r);
    TickScoreMonotone(w, delta, r);
  }

  // ---------------------------------------------------------------------------
  // Frames

  /** Elapsed time of a frame in 60 Hz frames: the wall-clock gap, capped at 40 ms. */
  function FrameDelta(lastTime: real, now: real): (d: real)
    ensures d <= 40.0 / 16.666
    ensures now >= lastTime ==> d >= 0.0
    ensures now - lastTime <= 40.0 ==> d == (now - lastTime) / 16.666
    ensures now - lastTime >= 40.0 ==> d == 40.0 / 16.666
  {
    Min(40.0, now - lastTime) / 16.666
  }

  /** The game-state part of one animation frame (the effective `loop`):
      the next frame is requested, the clock advances, and the tick runs. */
  function Frame(w: World, now: real, handle: nat, r: Draws): World
  {
    Tick(w.(rafId := Some(handle), lastTime := now), FrameDelta(w.lastTime, now), r)
  }

  datatype FrameInput = FrameInput(now: real, handle: nat, draws: Draws)

  /** A chain of frames, as the animation-frame callbacks deliver them. */
  function Frames(w: World, fs: seq<FrameInput>): World
    decreases |fs|
  {
    if fs == [] then w else Frames(Frame(w, fs[0].now, fs[0].handle, fs[0].draws), fs[1..])
  }

  /** Timestamps that never go backwards, starting at or after the last frame time. */
  ghost predicate ClockMonotone(lastTime: real, fs: seq<FrameInput>)
  {
    (|fs| > 0 ==> fs[0].now >= lastTime) &&
    forall k :: 0 < k < |fs| ==> fs[k - 1].now <= fs[k].now
  }

  /** Over any chain of frames the best score never decreases, and with a clock
      that never goes backwards neither does the score. */
  lemma {:induction false} FramesMonotone(w: World, fs: seq<FrameInput>)
    ensures Frames(w, fs).highScore >= w.highScore
    ensures ClockMonotone(w.lastTime, fs) ==> Frames(w, fs).score >= w.score
    decreases |fs|
  {
    if fs != [] {
      var f := fs[0];
      var w' := Frame(w, f.now, f.handle, f.draws);
      var start := w.(rafId := Some(f.handle), lastTime := f.now);
      TickHighScore(start, FrameDelta(w.lastTime, f.now), f.draws);
      FramesMonotone(w', fs[1..]);
      if ClockMonotone(w.lastTime, fs) {
        TickScoreMonotone(start, FrameDelta(w.lastTime, f.now), f.draws);
        assert w'.lastTime == f.now;
        assert ClockMonotone(w'.lastTime, fs[1..]);
      }
    }
  }

  // ---------------------------------------------------------------------------
  // Run control

  /** `reset`: a fresh run on the ground, started with a new frame request. */
  function ResetWorld(w: World, now: real, handle: nat): World
  {
    w.(obstacles := [], crowns := [], floatingTexts := [],
       spawnTimer := 0.0, crownSpawnTimer := 0.0, score := 0.0,
       player := w.player.(vy := 0.0, x := 150.0, y := Height - GroundHeight - w.player.h, onGround := true),
       running := true, lastTime := now, rafId := Some(handle))
  }

  /** A reset world is settled, keeps its best score, and the first tick after it
      starts from score 0. */
  lemma ResetSettles(w: World, now: real, handle: nat)
    requires -1 <= w.lastBgStage <= 1
    ensures var z := ResetWorld(w, now, handle);
      Settled(z) && z.highScore == w.highScore && z.score == 0.0 && z.running
  {
  }
}
