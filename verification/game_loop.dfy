/** The game module itself: its state lives in the fields of one `Game` object,
    and `init`, `start`, `stop`, `reset`, `jump`, `update`, the background
    stage switch and the animation-frame `loop` change those fields step by
    step. Each operation is proved to have the effect the pure model in
    `GameTick` gives it. */
module GameLoop {
  import opened JsMath
  import opened Sweeping
  import opened GameRules
  import opened GameTick
  import Background

  // ---------------------------------------------------------------------------
  // Configuration

  /** The folders tried, in this order, for every image. */
  function CandidateFolders(): (fs: seq<string>)
    ensures |fs| == 6 && fs[0] == "./src/images/" && fs[5] == "./assets/images/"
  {
    ["./src/images/", "./images/", "../src/images/", "../images/", "../../src/images/", "./assets/images/"]
  }

  const CrownFile: string := "CrownNoBackground.png"
  /** The single background shown on odd stages. */
  const OrigBgSrc: string := "../../src/images/origbig1.png"
  /** The scroll speed every layer gets when the background stage switches. */
  const SwitchedSpeed: real := 0.15

  // ---------------------------------------------------------------------------
  // Character selection

  /** ASCII upper case to lower case; every other character is left as is. */
  function LowerChar(c: char): char
  {
    if 'A' <= c <= 'Z' then (c as int - 'A' as int + 'a' as int) as char else c
  }

  /** `toLowerCase` on ASCII text. */
  function Lower(s: string): (r: string)
    ensures |r| == |s|
    ensures forall i :: 0 <= i < |s| ==> !('A' <= r[i] <= 'Z')
    ensures forall i :: 0 <= i < |s| && 'A' <= s[i] <= 'Z' ==> r[i] as int == s[i] as int + 32
    ensures forall i :: 0 <= i < |s| ==> (s[i] < 'A' || 'Z' < s[i]) ==> r[i] == s[i]
  {
    seq(|s|, i requires 0 <= i < |s| => LowerChar(s[i]))
  }

  /** Lower-casing twice is lower-casing once. */
  lemma LowerIdempotent(s: string)
    ensures Lower(Lower(s)) == Lower(s)
  {
    var l := Lower(s);
    assert forall i :: 0 <= i < |l| ==> LowerChar(l[i]) == l[i];
  }

  /** The selected character: the `character` query parameter, else the stored
      choice, else `princess1` -- an empty string counts as absent -- in lower case. */
  function SelectedCharacter(query: Option<string>, stored: Option<string>): (sel: string)
    ensures query.Some? && query.value != "" ==> sel == Lower(query.value)
    ensures (query.None? || query.value == "") && stored.Some? && stored.value != "" ==> sel == Lower(stored.value)
    ensures (query.None? || query.value == "") && (stored.None? || stored.value == "") ==> sel == "princess1"
  {
    if query.Some? && query.value != "" then Lower(query.value)
    else if stored.Some? && stored.value != "" then Lower(stored.value)
    else Lower("princess1")
  }

  /** The sprite file for a character name, falling back to princess 1. */
  function CharacterFile(sel: string): (file: string)
    ensures file in {"Princess_1_new.png", "Princess_2_new.png", "Princess_3_new.png"}
    ensures sel == "princess2" ==> file == "Princess_2_new.png"
    ensures sel == "princess3" ==> file == "Princess_3_new.png"
    ensures sel != "princess2" && sel != "princess3" ==> file == "Princess_1_new.png"
  {
    if sel == "princess2" then "Princess_2_new.png"
    else if sel == "princess3" then "Princess_3_new.png"
    else "Princess_1_new.png"
  }

  // ---------------------------------------------------------------------------
  // Image loading

  /** The first candidate URL that loads, as an image and its URL, both absent
      when none does. */
  method LoadImageFromCandidates(name: string, folders: seq<string>, fetch: Background.Fetch)
    returns (img: Option<Background.Image>, url: Option<string>)
    ensures img == Located(name, folders, fetch)
    ensures img.None? <==> url.None?
    ensures img.None? <==> forall j :: 0 <= j < |folders| ==> fetch(folders[j] + name).None?
    ensures img.Some? ==>
      exists k :: 0 <= k < |folders| && url.value == folders[k] + name && fetch(url.value) == img &&
        forall j :: 0 <= j < k ==> fetch(folders[j] + name).None?
  {
    var res, tried := Background.LoadFromFolders(name, folders, fetch);
    Background.FirstFoundNone(name, folders, 0, fetch);
    if res.Some? {
      img, url := Some(res.value.img), Some(res.value.url);
      assert url.value == folders[|tried| - 1] + name;
    } else {
      img, url := None, None;
    }
  }

  /** The image the candidate search yields, as the model of the search says. */
  function Located(name: string, folders: seq<string>, fetch: Background.Fetch): Option<Background.Image>
  {
    var f := Background.FirstFound(name, folders, 0, fetch);
    if f.Some? then Some(f.value.img) else None
  }

  // ---------------------------------------------------------------------------
  // Background stage switch

  /** One fresh, unloaded layer per preset source, in preset order, all at the
      switch speed. */
  function PresetLayers(srcs: seq<string>): (ls: seq<Background.Layer>)
    decreases |srcs|
  {
    if srcs == [] then []
    else PresetLayers(srcs[..|srcs| - 1]) + [Background.Layer(srcs[|srcs| - 1], SwitchedSpeed, None, 0.0)]
  }

  lemma {:induction false} PresetLayersSpec(srcs: seq<string>)
    ensures var ls := PresetLayers(srcs);
      |ls| == |srcs| &&
      forall i :: 0 <= i < |ls| ==>
        ls[i].src == srcs[i] && ls[i].speed == SwitchedSpeed && ls[i].img.None? && ls[i].offset == 0.0
    decreases |srcs|
  {
    if srcs != [] {
      PresetLayersSpec(srcs[..|srcs| - 1]);
    }
  }

  /** The layers after a switch to `stage`: the single original background on
      stage 1, otherwise the preset sources again, or nothing new when no preset
      was captured. */
  function StageLayers(stage: int, preset: Option<seq<string>>, current: seq<Background.Layer>): seq<Background.Layer>
  {
    if stage == 1 then [Background.Layer(OrigBgSrc, SwitchedSpeed, None, 0.0)]
    else if preset.None? then current
    else PresetLayers(preset.value)
  }

  /** The layers once a tick has moved the stage from `before` to `after`:
      unchanged when the stage is the same, the new stage's layers otherwise. */
  function SwitchedLayers(current: seq<Background.Layer>, before: int, after: int, preset: Option<seq<string>>): seq<Background.Layer>
  {
    if after == before then current else StageLayers(after, preset, current)
  }

  /** The sources of a list of layers (`layers.map(l => l.src)`). */
  function Sources(ls: seq<Background.Layer>): (srcs: seq<string>)
    ensures |srcs| == |ls| && forall i :: 0 <= i < |ls| ==> srcs[i] == ls[i].src
  {
    seq(|ls|, i requires 0 <= i < |ls| => ls[i].src)
  }

  /** Switching to stage 1 and back restores the preset's sources, but not its
      scroll speeds: the second layer of the built-in preset scrolls at 0.5,
      and after a restore every layer scrolls at 0.15. */
  lemma RestoreKeepsSourcesNotSpeeds(current: seq<Background.Layer>)
    ensures var initial := Background.InitialLayers();
      var restored := StageLayers(0, Some(Sources(initial)), StageLayers(1, Some(Sources(initial)), current));
      Sources(restored) == Sources(initial) &&
      restored[1].speed == SwitchedSpeed && initial[1].speed == 0.5
  {
    var initial := Background.InitialLayers();
    PresetLayersSpec(Sources(initial));
  }

  /** The stage marker starts at -1, so the first surviving tick of a run that
      begins below 20 points already switches to stage 0: the freshly loaded
      layers give way to unloaded copies of the preset, all at the switch speed. */
  lemma FirstStageSwitch(loaded: seq<Background.Layer>, srcs: seq<string>, score: real)
    requires 0.0 <= score < PointsPerStage
    ensures var ls := SwitchedLayers(loaded, -1, StageIndex(score), Some(srcs));
      StageIndex(score) == 0 && ls == PresetLayers(srcs) &&
      |ls| == |srcs| &&
      forall i :: 0 <= i < |ls| ==> ls[i].src == srcs[i] && ls[i].speed == SwitchedSpeed && ls[i].img.None?
  {
    StageExamples(score);
    PresetLayersSpec(srcs);
  }

  // ---------------------------------------------------------------------------
  // The game object

  class Game {
    /** The background scroller, absent when the page does not provide one. */
    const backgrounds: Background.Backgrounds?

    var player: Player
    var obstacles: seq<Obstacle>
    var spawnTimer: real
    var score: real
    var highScore: int
    var crowns: seq<Crown>
    var crownSpawnTimer: real
    var floatingTexts: seq<FloatingText>
    var running: bool
    var rafId: Option<nat>
    var lastTime: real
    var lastBgStage: int
    var charImg: Option<Background.Image>
    var crownImg: Option<Background.Image>
    /** The layer sources captured after the first background load. */
    var initialLayerPreset: Option<seq<string>>

    /** The part of the state a tick reads and writes. */
    function Snapshot(): World
      reads this
    {
      World(player, obstacles, spawnTimer, score, highScore, crowns, crownSpawnTimer,
            floatingTexts, running, rafId, lastTime, lastBgStage)
    }

    /** The module's state before `init`; `storedHighScore` is what local storage held. */
    constructor (storedHighScore: int, bgs: Background.Backgrounds?)
      ensures backgrounds == bgs
      ensures Snapshot() == World(InitialPlayer(), [], 0.0, 0.0, storedHighScore, [], 0.0, [], false, None, 0.0, -1)
      ensures charImg.None? && crownImg.None? && initialLayerPreset.None?
    {
      backgrounds := bgs;
      player := InitialPlayer();
      obstacles, spawnTimer, score, highScore := [], 0.0, 0.0, storedHighScore;
      crowns, crownSpawnTimer, floatingTexts := [], 0.0, [];
      running, rafId, lastTime, lastBgStage := false, None, 0.0, -1;
      charImg, crownImg, initialLayerPreset := None, None, None;
    }

    /** `jump`: the vertical velocity becomes the jump force, even in mid-air. */
    method Jump()
      modifies this`player
      ensures player == Jumped(old(player))
    {
      player := player.(vy := player.jumpForce);
    }

    /** `start`: does nothing while running; otherwise marks the run as running,
        stamps the clock and requests a frame (`now` and `handle` stand for
        `performance.now()` and the handle the browser returns). */
    method Start(now: real, handle: nat)
      modifies this`running, this`lastTime, this`rafId
      ensures old(running) ==> running && lastTime == old(lastTime) && rafId == old(rafId)
      ensures !old(running) ==> running && lastTime == now && rafId == Some(handle)
    {
      if running {
        return;
      }
      running := true;
      lastTime := now;
      rafId := Some(handle);
    }

    /** `stop`: the run stops and no frame stays requested. */
    method Stop()
      modifies this`running, this`rafId
      ensures !running && rafId.None?
    {
      running := false;
      rafId := None;
    }

    /** `reset`: clears the entities, timers and score, puts the player back on
        the ground, and restarts the loop. */
    method Reset(now: real, handle: nat)
      modifies this`obstacles, this`crowns, this`floatingTexts, this`spawnTimer, this`crownSpawnTimer,
        this`score, this`player, this`running, this`lastTime, this`rafId
      ensures Snapshot() == ResetWorld(old(Snapshot()), now, handle)
    {
      obstacles := [];
      crowns := [];
      floatingTexts := [];
      spawnTimer := 0.0;
      crownSpawnTimer := 0.0;
      score := 0.0;
      player := player.(vy := 0.0, x := 150.0, y := Height - GroundHeight - player.h, onGround := true);
      Stop();
      Start(now, handle);
      assert running && lastTime == now && rafId == Some(handle);
    }

    // -------------------------------------------------------------------------
    // The phases of `update`

    method ApplyPhysics(delta: real)
      modifies this`player
      ensures Snapshot() == PhysicsPhase(old(Snapshot()), delta)
    {
      var vy := player.vy + player.gravity * delta;
      var y := player.y + vy * delta;
      player := player.(vy := vy, y := y);
      var groundY := Height - GroundHeight - player.h;
      if player.y >= groundY {
        player := player.(y := groundY, vy := 0.0, onGround := true);
      }
    }

    method SpawnObstacle(delta: real, r: Draws)
      modifies this`spawnTimer, this`obstacles
      ensures Snapshot() == ObstacleSpawnPhase(old(Snapshot()), delta, r)
    {
      spawnTimer := spawnTimer - delta;
      var interval := SpawnInterval(score);
      if spawnTimer <= 0.0 {
        spawnTimer := interval as real;
        obstacles := obstacles + [NewObstacle(r.obstacleHeight, r.obstacleSide)];
      }
    }

    /** The backward walk that moves every obstacle and splices out the ones
        that have left the screen. */
    method MoveObstacles(dist: real)
      modifies this`obstacles
      ensures Snapshot() == ObstaclePhase(old(Snapshot()), dist)
    {
      ghost var s := obstacles;
      var i := |obstacles| - 1;
      while i >= 0
        invariant -1 <= i < |s|
        invariant obstacles == s[..i + 1] + SweepFrom(s, i + 1, dist, MoveObstacle, ObstacleFate).kept
      {
        ghost var rest := SweepFrom(s, i + 1, dist, MoveObstacle, ObstacleFate).kept;
        ghost var m := MoveObstacle(s[i], dist);
        SpliceStep(s, i, rest, m);
        obstacles := obstacles[i := obstacles[i].(x := obstacles[i].x - dist)];
        if obstacles[i].x + obstacles[i].w < -50.0 {
          obstacles := obstacles[..i] + obstacles[i + 1..];
        }
        i := i - 1;
      }
    }

    method SpawnCrown(delta: real, r: Draws)
      modifies this`crownSpawnTimer, this`crowns
      ensures Snapshot() == CrownSpawnPhase(old(Snapshot()), delta, r)
    {
      crownSpawnTimer := crownSpawnTimer - delta;
      var interval := CrownInterval(r.crownInterval);
      if crownSpawnTimer <= 0.0 {
        crownSpawnTimer := interval as real;
        crowns := crowns + [NewCrown(r.crownY)];
      }
    }

    /** The backward walk that moves every crown, splices out the ones that have
        left the screen, and collects the ones the player touches: +5 points and
        a "+5" label each. */
    method MoveCrowns(dist: real)
      modifies this`crowns, this`score, this`floatingTexts
      ensures Snapshot() == CrownPhase(old(Snapshot()), dist)
    {
      ghost var s := crowns;
      ghost var cp := CrownPass(player, dist);
      ghost var done := Swept([], []);
      var list, points, texts := crowns, score, floatingTexts;
      var i := |list| - 1;
      while i >= 0
        modifies {}
        invariant -1 <= i < |s|
        invariant done == SweepFrom(s, i + 1, cp, MoveCrown, CrownFate)
        invariant list == s[..i + 1] + done.kept
        invariant points == score + 5.0 * |done.taken| as real
        invariant texts == floatingTexts + PickupTexts(done.taken)
      {
        ghost var m := MoveCrown(s[i], cp);
        SpliceStep(s, i, done.kept, m);
        var c := list[i].(x := list[i].x - dist);
        assert c == m;
        list := list[i := c];
        if c.x + c.w < -50.0 {
          assert CrownFate(m, cp) == Drop;
          list := list[..i] + list[i + 1..];
        } else if RectsIntersect(player.x, player.y, player.w, player.h, c.x, c.y, c.w, c.h) {
          assert CrownFate(m, cp) == Take;
          list := list[..i] + list[i + 1..];
          points := points + 5.0;
          PickupTextsAppend(done.taken, m);
          texts := texts + [PickupText(c)];
          done := Swept(done.kept, done.taken + [m]);
        } else {
          assert CrownFate(m, cp) == Keep;
          done := Swept([m] + done.kept, done.taken);
        }
        i := i - 1;
      }
      assert list == done.kept;
      crowns, score, floatingTexts := list, points, texts;
    }

    /** The backward walk that lifts and ages every label and splices out the
        expired ones. */
    method DecayTexts(delta: real)
      modifies this`floatingTexts
      ensures Snapshot() == TextPhase(old(Snapshot()), delta)
    {
      ghost var s := floatingTexts;
      var i := |floatingTexts| - 1;
      while i >= 0
        invariant -1 <= i < |s|
        invariant floatingTexts == s[..i + 1] + SweepFrom(s, i + 1, delta, DecayText, TextFate).kept
      {
        ghost var rest := SweepFrom(s, i + 1, delta, DecayText, TextFate).kept;
        SpliceStep(s, i, rest, DecayText(s[i], delta));
        var ft := floatingTexts[i];
        floatingTexts := floatingTexts[i := ft.(y := ft.y - 0.3 * delta, ttl := ft.ttl - delta)];
        if floatingTexts[i].ttl <= 0.0 {
          floatingTexts := floatingTexts[..i] + floatingTexts[i + 1..];
        }
        i := i - 1;
      }
    }

    /** `checkBackgroundByScore`: when the stage index differs from the last one
        seen, remember it and, if there is a scroller, replace its layers with the
        ones for the new stage. */
    method CheckBackgroundByScore()
      modifies this`lastBgStage, backgrounds
      ensures lastBgStage == StageIndex(score)
      ensures backgrounds != null ==>
        backgrounds.layers == SwitchedLayers(old(backgrounds.layers), old(lastBgStage), lastBgStage, initialLayerPreset)
    {
      var stage := StageIndex(score);
      if stage == lastBgStage {
        return;
      }
      lastBgStage := stage;
      if backgrounds == null {
        return;
      }
      if stage == 1 {
        backgrounds.layers := [];
        backgrounds.layers := backgrounds.layers + [Background.Layer(OrigBgSrc, SwitchedSpeed, None, 0.0)];
      } else {
        if initialLayerPreset.None? {
          return;
        }
        var preset := initialLayerPreset.value;
        backgrounds.layers := [];
        var k := 0;
        while k < |preset|
          modifies backgrounds
          invariant 0 <= k <= |preset|
          invariant backgrounds.layers == PresetLayers(preset[..k])
        {
          backgrounds.layers := backgrounds.layers + [Background.Layer(preset[k], SwitchedSpeed, None, 0.0)];
          assert preset[..k + 1][..k] == preset[..k];
          k := k + 1;
        }
        assert preset[..k] == preset;
      }
    }

    /** The part of `update` before the collision test: physics, obstacle spawn
        and pass, crown spawn and pass, label pass. */
    method Advance(delta: real, r: Draws)
      modifies this`player, this`obstacles, this`spawnTimer, this`score, this`crowns,
        this`crownSpawnTimer, this`floatingTexts
      ensures Snapshot() == Moved(old(Snapshot()), delta, r)
    {
      ghost var w0 := Snapshot();
      ApplyPhysics(delta);
      SpawnObstacle(delta, r);
      ghost var w1 := Snapshot();
      var speed := ObstacleSpeed(score);
      var dist := speed as real * delta;
      assert dist == Travel(w0.score, delta);
      MoveObstacles(dist);
      SpawnCrown(delta, r);
      ghost var w2 := Snapshot();
      MoveCrowns(dist);
      DecayTexts(delta);
      assert w1 == ObstacleSpawnPhase(PhysicsPhase(w0, delta), delta, r);
      assert w2 == CrownSpawnPhase(ObstaclePhase(w1, dist), delta, r);
    }

    /** The end of `update`: the first obstacle the player overlaps, if any,
        ends the run and may raise the best score; otherwise the survival score
        is added and the background stage checked. */
    method Conclude(delta: real)
      modifies this`score, this`highScore, this`running, this`rafId, this`lastBgStage, backgrounds
      ensures Collides(old(player), old(obstacles)) ==> Snapshot() == GameOverPhase(old(Snapshot()))
      ensures !Collides(old(player), old(obstacles)) ==> Snapshot() == SurvivalPhase(old(Snapshot()), delta)
      ensures backgrounds != null ==>
        backgrounds.layers == SwitchedLayers(old(backgrounds.layers), old(lastBgStage), lastBgStage, initialLayerPreset)
    {
      var j := 0;
      while j < |obstacles|
        modifies {}
        invariant 0 <= j <= |obstacles|
        invariant forall k :: 0 <= k < j ==> !HitsObstacle(player, obstacles[k])
      {
        var o := obstacles[j];
        if RectsIntersect(player.x, player.y, player.w, player.h, o.x, o.y, o.w, o.h) {
          break;
        }
        j := j + 1;
      }
      if j < |obstacles| {
        assert HitsObstacle(player, obstacles[j]);
        Stop();
        if score > highScore as real {
          highScore := score.Floor;
        }
        return;
      }
      score := score + 0.01 * delta;
      CheckBackgroundByScore();
    }

    /** `update(delta)`: one tick. It has the effect `Tick` gives it, and the
        background layers change exactly when the stage index changes. */
    method Update(delta: real, r: Draws)
      modifies this`player, this`obstacles, this`spawnTimer, this`score, this`highScore, this`crowns,
        this`crownSpawnTimer, this`floatingTexts, this`running, this`rafId, this`lastBgStage, backgrounds
      ensures Snapshot() == Tick(old(Snapshot()), delta, r)
      ensures backgrounds != null ==>
        backgrounds.layers == SwitchedLayers(old(backgrounds.layers), old(lastBgStage), lastBgStage, initialLayerPreset)
    {
      Advance(delta, r);
      Conclude(delta);
    }

    /** The first half of a frame: the next frame is requested, the elapsed
        time is measured (capped at 40 ms) and the background scrolls by it. */
    method BeginFrame(now: real, handle: nat) returns (delta: real)
      modifies this`rafId, this`lastTime, backgrounds
      ensures delta == FrameDelta(old(lastTime), now)
      ensures Snapshot() == old(Snapshot()).(rafId := Some(handle), lastTime := now)
      ensures backgrounds != null ==>
        backgrounds.layers == Background.ScrollLayers(old(backgrounds.layers), delta * 2.0, 1.0)
    {
      rafId := Some(handle);
      var dt := Min(40.0, now - lastTime);
      lastTime := now;
      delta := dt / 16.666;
      if backgrounds != null {
        backgrounds.Update(delta * 2.0, 1.0);
      }
    }

    /** The animation-frame callback `loop(now)`: request the next frame, turn
        the elapsed time into `delta`, scroll the background at twice that rate,
        and run one tick. Over the background, the switch a tick may make
        applies to the scrolled layers. */
    method Frame(now: real, handle: nat, r: Draws)
      modifies this`player, this`obstacles, this`spawnTimer, this`score, this`highScore, this`crowns,
        this`crownSpawnTimer, this`floatingTexts, this`running, this`rafId, this`lastTime, this`lastBgStage,
        backgrounds
      ensures Snapshot() == GameTick.Frame(old(Snapshot()), now, handle, r)
      ensures backgrounds != null ==>
        backgrounds.layers == SwitchedLayers(
          Background.ScrollLayers(old(backgrounds.layers), FrameDelta(old(lastTime), now) * 2.0, 1.0),
          old(lastBgStage), lastBgStage, initialLayerPreset)
    {
      ghost var layers := if backgrounds != null then backgrounds.layers else [];
      var delta := BeginFrame(now, handle);
      ghost var scrolled := if backgrounds != null then backgrounds.layers else [];
      assert backgrounds != null ==> scrolled == Background.ScrollLayers(layers, FrameDelta(old(lastTime), now) * 2.0, 1.0);
      Update(delta, r);
    }

    /** The loading half of `init`: the background layers (whose sources are
        then captured as the preset), the character sprite and the crown sprite,
        each from the first candidate folder that has it. The character comes
        from the `character` query parameter or the stored choice. A sprite that
        is found nowhere leaves the previous one in place. */
    method LoadAssets(fetch: Background.Fetch, query: Option<string>, stored: Option<string>)
      modifies this`charImg, this`crownImg, this`initialLayerPreset, backgrounds
      ensures backgrounds != null ==>
        backgrounds.layers == Background.LoadedLayers(old(backgrounds.layers), CandidateFolders(), fetch) &&
        initialLayerPreset == Some(Sources(old(backgrounds.layers)))
      ensures backgrounds == null ==> initialLayerPreset == old(initialLayerPreset)
      ensures var found := Located(CharacterFile(SelectedCharacter(query, stored)), CandidateFolders(), fetch);
        charImg == if found.Some? then found else old(charImg)
      ensures var found := Located(CrownFile, CandidateFolders(), fetch);
        crownImg == if found.Some? then found else old(crownImg)
    {
      if backgrounds != null {
        var _ := backgrounds.Load(CandidateFolders(), fetch);
        forall i | 0 <= i < |backgrounds.layers|
          ensures backgrounds.layers[i].src == old(backgrounds.layers)[i].src
        {
          Background.LoadedLayerSpec(old(backgrounds.layers)[i], CandidateFolders(), fetch);
        }
        assert Sources(backgrounds.layers) == Sources(old(backgrounds.layers));
        assert backgrounds.layers == Background.LoadedLayers(old(backgrounds.layers), CandidateFolders(), fetch);
        initialLayerPreset := Some(Sources(backgrounds.layers));
      }
      var selected := SelectedCharacter(query, stored);
      var img, url := LoadImageFromCandidates(CharacterFile(selected), CandidateFolders(), fetch);
      if img.Some? {
        charImg := img;
      }
      var cimg, curl := LoadImageFromCandidates(CrownFile, CandidateFolders(), fetch);
      if cimg.Some? {
        crownImg := cimg;
      }
    }

    /** `init`: when the game area is present (`mounted`), put the player on the
        ground, load the assets, and start a fresh run; otherwise do nothing.
        Loading is through `fetch`, which says which URLs hold an image; `query`
        and `stored` are the `character` query parameter and the stored choice. */
    method Init(mounted: bool, fetch: Background.Fetch, query: Option<string>, stored: Option<string>, now: real, handle: nat)
      modifies this`player, this`obstacles, this`crowns, this`floatingTexts, this`spawnTimer,
        this`crownSpawnTimer, this`score, this`running, this`lastTime, this`rafId,
        this`charImg, this`crownImg, this`initialLayerPreset, backgrounds
      ensures !mounted ==>
        Snapshot() == old(Snapshot()) && charImg == old(charImg) &&
        crownImg == old(crownImg) && initialLayerPreset == old(initialLayerPreset)
      ensures !mounted && backgrounds != null ==> backgrounds.layers == old(backgrounds.layers)
      ensures mounted ==> Snapshot() == ResetWorld(old(Snapshot()), now, handle)
      ensures mounted && backgrounds != null ==>
        backgrounds.layers == Background.LoadedLayers(old(backgrounds.layers), CandidateFolders(), fetch) &&
        initialLayerPreset == Some(Sources(old(backgrounds.layers)))
      ensures mounted && backgrounds == null ==> initialLayerPreset == old(initialLayerPreset)
      ensures mounted ==>
        var found := Located(CharacterFile(SelectedCharacter(query, stored)), CandidateFolders(), fetch);
        charImg == if found.Some? then found else old(charImg)
      ensures mounted ==>
        var found := Located(CrownFile, CandidateFolders(), fetch);
        crownImg == if found.Some? then found else old(crownImg)
    {
      if !mounted {
        return;
      }
      ghost var w0 := Snapshot();
      player := player.(y := Height - GroundHeight - player.h);
      ghost var w1 := Snapshot();
      assert ResetWorld(w1, now, handle) == ResetWorld(w0, now, handle);
      LoadAssets(fetch, query, stored);
      assert Snapshot() == w1;
      Reset(now, handle);
    }
  }
}
