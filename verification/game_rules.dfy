/** The pure rules of the runner: the entities, the collision test, the
    physics step, difficulty scaling, spawning, and how each entity kind is
    moved and retired within one tick. Units are pixels and "frames" of about
    1/60 s (`delta` is elapsed time in those frames). */
module GameRules {
  import opened JsMath
  import opened Sweeping
  import Background

  const Width: real := 1000.0
  const Height: real := 600.0
  const GroundHeight: real := Background.GroundHeight as real
  const ObstacleWidth: real := 84.0
  const ObstacleSpeedBase: int := 4
  const CrownW: real := 38.0
  const CrownH: real := 28.0
  const PointsPerStage: real := 20.0
  /** An entity is retired once its right edge is further left than this. */
  const RetireEdge: real := -50.0

  datatype Player = Player(x: real, y: real, w: real, h: real, vy: real, gravity: real, jumpForce: real, onGround: bool)
  datatype Obstacle = Obstacle(x: real, w: real, h: real, y: real, fromTop: bool)
  datatype Crown = Crown(x: real, y: real, w: real, h: real)
  datatype FloatingText = FloatingText(x: real, y: real, ttl: real, text: string)

  /** The player as first declared, before `init` puts it on the ground. */
  function InitialPlayer(): (p: Player)
    ensures p.x == 150.0 && p.w == 80.0 && p.h == 80.0 && p.vy == 0.0 && !p.onGround
  {
    Player(150.0, 0.0, 80.0, 80.0, 0.0, 0.9, -16.0, false)
  }

  // ---------------------------------------------------------------------------
  // Collision

  /** Strict axis-aligned overlap of rectangle 1 and rectangle 2. */
  predicate RectsIntersect(x1: real, y1: real, w1: real, h1: real, x2: real, y2: real, w2: real, h2: real)
  {
    x1 < x2 + w2 && x1 + w1 > x2 && y1 < y2 + h2 && y1 + h1 > y2
  }

  lemma RectsIntersectSymmetric(x1: real, y1: real, w1: real, h1: real, x2: real, y2: real, w2: real, h2: real)
    ensures RectsIntersect(x1, y1, w1, h1, x2, y2, w2, h2) <==> RectsIntersect(x2, y2, w2, h2, x1, y1, w1, h1)
  {
  }

  /** Rectangles that only share an edge do not intersect. */
  lemma TouchingRectsDoNotIntersect(x1: real, y1: real, w1: real, h1: real, x2: real, y2: real, w2: real, h2: real)
    requires x1 + w1 == x2 || x2 + w2 == x1 || y1 + h1 == y2 || y2 + h2 == y1
    ensures !RectsIntersect(x1, y1, w1, h1, x2, y2, w2, h2)
  {
  }

  predicate HitsObstacle(p: Player, o: Obstacle)
  {
    RectsIntersect(p.x, p.y, p.w, p.h, o.x, o.y, o.w, o.h)
  }

  predicate HitsCrown(p: Player, c: Crown)
  {
    RectsIntersect(p.x, p.y, p.w, p.h, c.x, c.y, c.w, c.h)
  }

  // ---------------------------------------------------------------------------
  // Physics

  /** The player's top edge when standing on the ground. */
  function GroundY(p: Player): real
  {
    Height - GroundHeight - p.h
  }

  /** Gravity integration followed by the ground clamp. */
  function Fall(p: Player, delta: real): (q: Player)
    ensures q.x == p.x && q.w == p.w && q.h == p.h && q.gravity == p.gravity && q.jumpForce == p.jumpForce
    ensures q.y <= GroundY(p)
    ensures var vy := p.vy + p.gravity * delta; var y := p.y + vy * delta;
      if y >= GroundY(p) then q.y == GroundY(p) && q.vy == 0.0 && q.onGround
      else q.y == y && q.vy == vy && q.onGround == p.onGround
  {
    var vy := p.vy + p.gravity * delta;
    var y := p.y + vy * delta;
    if y >= GroundY(p) then p.(y := GroundY(p), vy := 0.0, onGround := true)
    else p.(y := y, vy := vy)
  }

  /** `jump`: the velocity becomes the jump force whether or not the player is on the ground. */
  function Jumped(p: Player): (q: Player)
    ensures q.vy == p.jumpForce && q.vy == q.jumpForce
    ensures q.x == p.x && q.y == p.y && q.w == p.w && q.h == p.h
    ensures q.gravity == p.gravity && q.onGround == p.onGround
  {
    p.(vy := p.jumpForce)
  }

  // ---------------------------------------------------------------------------
  // Difficulty

  /** Frames between obstacle spawns. */
  function SpawnInterval(score: real): (r: int)
    ensures r >= 40
    ensures score >= 0.0 ==> r <= 90
  {
    var v := 90 - (score / 5.0).Floor;
    if v >= 40 then v else 40
  }

  /** Horizontal speed of obstacles and crowns, in pixels per frame. */
  function ObstacleSpeed(score: real): (r: int)
    ensures score >= 0.0 ==> r >= ObstacleSpeedBase
  {
    ObstacleSpeedBase + (score / 10.0).Floor
  }

  lemma FloorMonotone(a: real, b: real)
    requires a <= b
    ensures a.Floor <= b.Floor
  {
  }

  /** A higher score never spawns obstacles less often nor moves them more slowly. */
  lemma DifficultyMonotone(s1: real, s2: real)
    requires s1 <= s2
    ensures SpawnInterval(s2) <= SpawnInterval(s1)
    ensures ObstacleSpeed(s1) <= ObstacleSpeed(s2)
  {
    FloorMonotone(s1 / 5.0, s2 / 5.0);
    FloorMonotone(s1 / 10.0, s2 / 10.0);
  }

  lemma DifficultyExamples()
    ensures SpawnInterval(0.0) == 90 && ObstacleSpeed(0.0) == 4
    ensures SpawnInterval(50.0) == 80 && ObstacleSpeed(50.0) == 9
    ensures SpawnInterval(1000.0) == 40
  {
    assert (50.0 / 5.0).Floor == 10;
    assert (50.0 / 10.0).Floor == 5;
    assert (1000.0 / 5.0).Floor == 200;
  }

  /** Stage of the background toggle: `floor(score / 20) % 2` with JS's `%`. */
  function StageIndex(score: real): (s: int)
    ensures -1 <= s <= 1
    ensures score >= 0.0 ==> s == 0 || s == 1
    ensures score < 0.0 ==> s == -1 || s == 0
    ensures -PointsPerStage <= score < 0.0 ==> s == -1
  {
    IntRem((score / PointsPerStage).Floor, 2)
  }

  /** The stages alternate every 20 points: 0 on [0, 20), 1 on [20, 40), 0 on [40, 60). */
  lemma StageExamples(score: real)
    requires 0.0 <= score < 60.0
    ensures score < 20.0 ==> StageIndex(score) == 0
    ensures 20.0 <= score < 40.0 ==> StageIndex(score) == 1
    ensures 40.0 <= score ==> StageIndex(score) == 0
  {
  }

  /** The best score after a fatal collision at `score`. */
  function HighScoreAfter(highScore: int, score: real): (r: int)
    ensures r >= highScore
    ensures score > highScore as real ==> r as real <= score < r as real + 1.0
    ensures score <= highScore as real ==> r == highScore
  {
    if score > highScore as real then score.Floor else highScore
  }

  // ---------------------------------------------------------------------------
  // Spawning

  /** The `Math.random()` draws one tick may consume, in the order the source makes them. */
  datatype Draws = Draws(obstacleHeight: real, obstacleSide: real, crownInterval: real, crownY: real)

  /** A new obstacle: just right of the viewport, 40 to 280 pixels tall, hanging
      from the top or standing on the ground by a coin flip. */
  function NewObstacle(heightDraw: real, sideDraw: real): (o: Obstacle)
    ensures o.x == Width + 20.0 && o.w == ObstacleWidth
    ensures 0.0 <= heightDraw < 1.0 ==> 40.0 <= o.h < 280.0
    ensures o.fromTop <==> sideDraw < 0.5
    ensures o.fromTop ==> o.y == 0.0
    ensures !o.fromTop ==> o.y + o.h == Height - GroundHeight
  {
    var h := 40.0 + heightDraw * 240.0;
    var fromTop := sideDraw < 0.5;
    Obstacle(Width + 20.0, ObstacleWidth, h, if fromTop then 0.0 else Height - GroundHeight - h, fromTop)
  }

  /** Frames until the next crown: drawn every tick, used only when the timer runs out. */
  function CrownInterval(draw: real): (r: int)
    ensures 0.0 <= draw < 1.0 ==> 140 <= r < 300
  {
    140 + (draw * 160.0).Floor
  }

  /** Highest top edge a crown may have: 40 pixels above the ground, crown included. */
  const MaxCrownY: real := Height - GroundHeight - CrownH - 40.0

  /** A crown's top edge: whatever the draw, it lies in the reachable band [40, MaxCrownY]. */
  function CrownY(draw: real): (y: real)
    ensures 40.0 <= y <= MaxCrownY
    ensures y == y.Floor as real
  {
    var minY := 40.0;
    var maxY := MaxCrownY;
    Max(minY, Min(maxY, (minY + draw * (Max(minY, maxY) - minY)).Floor as real))
  }

  function NewCrown(draw: real): (c: Crown)
    ensures c.x == Width + 30.0 && c.w == CrownW && c.h == CrownH
    ensures 40.0 <= c.y && c.y + c.h + 40.0 <= Height - GroundHeight
  {
    Crown(Width + 30.0, CrownY(draw), CrownW, CrownH)
  }

  // ---------------------------------------------------------------------------
  // Moving and retiring entities

  function MoveObstacle(o: Obstacle, dist: real): Obstacle
  {
    o.(x := o.x - dist)
  }

  function ObstacleFate(o: Obstacle, dist: real): Fate
  {
    if o.x + o.w < RetireEdge then Drop else Keep
  }

  /** What the crown pass depends on: the player and the distance crowns move. */
  datatype CrownPass = CrownPass(player: Player, dist: real)

  function MoveCrown(c: Crown, cp: CrownPass): Crown
  {
    c.(x := c.x - cp.dist)
  }

  /** Off-screen crowns are dropped before the pickup test; touched crowns are collected. */
  function CrownFate(c: Crown, cp: CrownPass): Fate
  {
    if c.x + c.w < RetireEdge then Drop
    else if HitsCrown(cp.player, c) then Take
    else Keep
  }

  function DecayText(t: FloatingText, delta: real): FloatingText
  {
    t.(y := t.y - 0.3 * delta, ttl := t.ttl - delta)
  }

  function TextFate(t: FloatingText, delta: real): Fate
  {
    if t.ttl <= 0.0 then Drop else Keep
  }

  /** The "+5" label a collected crown leaves at its centre-top. */
  function PickupText(c: Crown): (t: FloatingText)
    ensures t.text == "+5" && t.ttl == 60.0 && t.x == c.x + c.w / 2.0 && t.y == c.y
  {
    FloatingText(c.x + c.w / 2.0, c.y, 60.0, "+5")
  }

  /** One label per collected crown, in collection order. */
  function PickupTexts(cs: seq<Crown>): (ts: seq<FloatingText>)
    ensures |ts| == |cs|
    decreases |cs|
  {
    if cs == [] then [] else PickupTexts(cs[..|cs| - 1]) + [PickupText(cs[|cs| - 1])]
  }

  /** The k-th label belongs to the k-th collected crown. */
  lemma {:induction false} PickupTextsSpec(cs: seq<Crown>)
    ensures forall k :: 0 <= k < |cs| ==> PickupTexts(cs)[k] == PickupText(cs[k])
    decreases |cs|
  {
    if cs != [] {
      PickupTextsSpec(cs[..|cs| - 1]);
    }
  }

  /** Collecting one more crown appends its label. */
  lemma PickupTextsAppend(cs: seq<Crown>, c: Crown)
    ensures PickupTexts(cs + [c]) == PickupTexts(cs) + [PickupText(c)]
  {
    assert (cs + [c])[..|cs|] == cs;
  }

  /** After the obstacle pass every survivor is on screen (`x + w >= -50`); the
      survivors are exactly the obstacles that are on screen once moved, in their
      original order, and each moved left by exactly `dist`. */
  lemma ObstaclePassSpec(s: seq<Obstacle>, dist: real)
    ensures var r := Sweep(s, dist, MoveObstacle, ObstacleFate).kept;
      var ix := Picked(s, 0, dist, MoveObstacle, ObstacleFate, Keep);
      (forall k :: 0 <= k < |r| ==> r[k].x + r[k].w >= RetireEdge) &&
      |r| == |ix| && Ascending(ix) &&
      (forall k :: 0 <= k < |r| ==> r[k] == s[ix[k]].(x := s[ix[k]].x - dist)) &&
      (forall j :: 0 <= j < |s| ==> (j in ix <==> s[j].x - dist + s[j].w >= RetireEdge))
  {
    SweepFates(s, 0, dist, MoveObstacle, ObstacleFate);
    KeptInOrder(s, 0, dist, MoveObstacle, ObstacleFate);
    PickedExactly(s, 0, dist, MoveObstacle, ObstacleFate, Keep);
  }

  /** An obstacle moved left by each distance of `dists` in turn is kept by
      every one of those passes. */
  predicate ObstacleSurvives(o: Obstacle, dists: seq<real>)
    decreases |dists|
  {
    |dists| == 0 ||
    (ObstacleFate(MoveObstacle(o, dists[0]), dists[0]) == Keep &&
     ObstacleSurvives(MoveObstacle(o, dists[0]), dists[1..]))
  }

  /** Obstacles are retired in bounded time: when every pass moves an obstacle
      at least `step` to the left, it survives at most
      `(x + w - RetireEdge) / step` passes. */
  lemma {:induction false} ObstacleRetires(o: Obstacle, dists: seq<real>, step: real)
    requires step > 0.0
    requires forall i :: 0 <= i < |dists| ==> dists[i] >= step
    requires |dists| > 0 && ObstacleSurvives(o, dists)
    ensures |dists| as real * step <= o.x + o.w - RetireEdge
    decreases |dists|
  {
    var m := MoveObstacle(o, dists[0]);
    if |dists| > 1 {
      assert forall i :: 0 <= i < |dists[1..]| ==> dists[1..][i] == dists[i + 1];
      ObstacleRetires(m, dists[1..], step);
      assert |dists| as real * step == (|dists| - 1) as real * step + step;
    }
  }

  /** A freshly spawned obstacle, right edge at 1104, is retired after at most
      1154 / step passes of at least `step` pixels each. */
  lemma SpawnedObstacleRetires(heightDraw: real, sideDraw: real, dists: seq<real>, step: real)
    requires step > 0.0
    requires forall i :: 0 <= i < |dists| ==> dists[i] >= step
    requires |dists| > 0 && ObstacleSurvives(NewObstacle(heightDraw, sideDraw), dists)
    ensures |dists| as real * step <= 1154.0
  {
    ObstacleRetires(NewObstacle(heightDraw, sideDraw), dists, step);
  }

  /** After the crown pass every kept crown is on screen and untouched, every
      collected crown touched the player, and both are the moved crowns with
      that outcome: kept ones in list order, collected ones last index first. */
  lemma CrownPassSpec(s: seq<Crown>, p: Player, dist: real)
    ensures var r := Sweep(s, CrownPass(p, dist), MoveCrown, CrownFate);
      var keep := Picked(s, 0, CrownPass(p, dist), MoveCrown, CrownFate, Keep);
      var take := Picked(s, 0, CrownPass(p, dist), MoveCrown, CrownFate, Take);
      (forall k :: 0 <= k < |r.kept| ==> r.kept[k].x + r.kept[k].w >= RetireEdge && !HitsCrown(p, r.kept[k])) &&
      (forall k :: 0 <= k < |r.taken| ==> r.taken[k].x + r.taken[k].w >= RetireEdge && HitsCrown(p, r.taken[k])) &&
      |r.kept| == |keep| && Ascending(keep) &&
      (forall k :: 0 <= k < |keep| ==> r.kept[k] == s[keep[k]].(x := s[keep[k]].x - dist)) &&
      |r.taken| == |take| && Ascending(take) &&
      (forall k :: 0 <= k < |take| ==> r.taken[k] == s[take[|take| - 1 - k]].(x := s[take[|take| - 1 - k]].x - dist))
  {
    var cp := CrownPass(p, dist);
    SweepFates(s, 0, cp, MoveCrown, CrownFate);
    KeptInOrder(s, 0, cp, MoveCrown, CrownFate);
    TakenInReverseOrder(s, 0, cp, MoveCrown, CrownFate);
    PickedExactly(s, 0, cp, MoveCrown, CrownFate, Keep);
    PickedExactly(s, 0, cp, MoveCrown, CrownFate, Take);
  }

  /** After the label pass every label left has time to live, and each is an
      earlier label, in order, with its ttl reduced by exactly `delta`. */
  lemma TextPassSpec(s: seq<FloatingText>, delta: real)
    ensures var r := Sweep(s, delta, DecayText, TextFate).kept;
      var ix := Picked(s, 0, delta, DecayText, TextFate, Keep);
      (forall k :: 0 <= k < |r| ==> r[k].ttl > 0.0) &&
      |r| == |ix| && Ascending(ix) &&
      (forall k :: 0 <= k < |r| ==> r[k] == s[ix[k]].(y := s[ix[k]].y - 0.3 * delta, ttl := s[ix[k]].ttl - delta)) &&
      (forall j :: 0 <= j < |s| ==> (j in ix <==> s[j].ttl - delta > 0.0))
  {
    SweepFates(s, 0, delta, DecayText, TextFate);
    KeptInOrder(s, 0, delta, DecayText, TextFate);
    PickedExactly(s, 0, delta, DecayText, TextFate, Keep);
  }
}
