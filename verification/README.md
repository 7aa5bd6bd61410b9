# Princess-Bird endless runner: a verified model of the game loop

This project models the core of the Princess-Bird browser runner. The player
jumps over obstacles that spawn at the right edge and scroll left, and
collects crowns worth 5 points each. The score also grows with the time
survived, and every 20 points the parallax background switches between its
layered preset and a single wide image. The core lives in two scripts:

- `html-website/pages/WorkingGameLogic.js` holds the game module. Its state
  is the player, the obstacle, crown and label lists, the two spawn timers, the
  score and best score, and the run flag and frame handle. Its operations are
  `init`, `start`, `stop`, `reset`, `jump`, `update(delta)`, the stage switch
  `checkBackgroundByScore`, and the animation-frame callback `loop(now)`.
- `html-website/pages/Background.js` holds the parallax scroller: a list of
  layers with `load`, `update` and `render`.

Modules, in dependency order:

| module | file | what it holds |
|---|---|---|
| `JsMath` | `js_math.dfy` | `Option` (a JS value that may be `null`), and JS `%` on numbers and integers. JS `%` truncates, so the remainder has the sign of the dividend. |
| `Sweeping` | `sweeping.dfy` | The backward walk that `update` runs over each entity list: move every entity, then keep it, drop it or (for crowns) collect it, splicing in place. It is specified once, generically, as `Sweep`, with its order and exactness lemmas. |
| `Background` | `background.dfy` | The layer list as class `Backgrounds`. Its `Load`, `Update` and `Render` are loops over the list, each proved against a function of the old list: `LoadedLayer`, `ScrollLayers`, `Tiles`. It also holds the candidate-folder search `LoadFromFolders`. |
| `GameRules` | `game_rules.dfy` | The pure rules: entities, the collision test, the physics step, difficulty, spawning, and the per-entity move and fate of each pass. |
| `GameTick` | `game_tick.dfy` | One tick as a function `Tick` of a `World` value, built from its phases in source order. Also the frame step `Frame`, chains of frames, and `ResetWorld`, with the lemmas about them. |
| `GameLoop` | `game_loop.dfy` | The game module as class `Game`. Its fields are the module's variables and its methods mutate them as the source does. Each method is proved to have the effect the `GameTick` function gives it: `Snapshot() == Tick(old(Snapshot()), …)`. Also character selection and image loading. |

Inputs the browser supplies are parameters:

- `Math.random()` draws: a `Draws` value, in source order;
- image loading: a `Fetch` oracle from URL to image or failure;
- `performance.now()` and the `requestAnimationFrame` handle: `now` and `handle`;
- local storage and the query string: `storedHighScore`, `query` and `stored`;
- whether `#gameArea` exists: `mounted`.

JS numbers are `real`; image sizes are integers, with a positive width.

## Model

| member | source | states |
|---|---|---|
| JsMath.RealRem | html-website/pages/Background.js:42 | JS `%` with a positive divisor: the result differs from the dividend by a whole number of divisors (`WholeMultiple`). A non-negative dividend gives a result in `[0, b)`, a negative one a result in `(-b, 0]`, and a dividend already in `[0, b)` is returned unchanged. |
| JsMath.IntRem | html-website/pages/WorkingGameLogic.js:328 | JS `%` on integers: the dividend minus the remainder is a multiple of the divisor, and the remainder has the sign of the dividend and is smaller than the divisor in magnitude |
| Sweeping.SweepFates | html-website/pages/WorkingGameLogic.js:258-262 | every entity the backward walk keeps has fate Keep, and every one it collects has fate Take |
| Sweeping.PickedExactly | html-website/pages/WorkingGameLogic.js:258-262 | the indices selected for a fate are ascending and contain exactly the indices whose moved entity meets that fate |
| Sweeping.KeptInOrder | html-website/pages/WorkingGameLogic.js:258-262 | the kept entities are, in original list order, exactly the moved entities whose fate is Keep |
| Sweeping.TakenInReverseOrder | html-website/pages/WorkingGameLogic.js:278-287 | the collected entities are exactly the moved ones whose fate is Take, last index first, as the backward walk meets them |
| Background.InitialLayers | html-website/pages/Background.js:4-8 | three layers, all unloaded and at offset 0 |
| Background.FirstFoundNone | html-website/pages/Background.js:10-23 | the folder search `FirstFound` fails exactly when no candidate URL loads |
| Background.FirstFoundAt | html-website/pages/Background.js:10-23 | when folder k is the first that loads, the search yields `folders[k] + name` and that image |
| Background.LoadFromFolders | html-website/pages/Background.js:10-23 | the loop's result is the first success. The URLs it requests are `folders[0] + name`, `folders[1] + name`, … in order. Every URL before the last one requested failed, so nothing after the first success is requested. On failure every folder was tried. |
| Background.LoadedLayerSpec | html-website/pages/Background.js:26-33 | loading keeps a layer's src, speed and offset. The image is set when some folder has it, and left as it was when none does. |
| Background.Backgrounds.constructor | html-website/pages/Background.js:4-8 | the scroller starts with the three initial layers |
| Background.Backgrounds.Load | html-website/pages/Background.js:25-37 | each layer becomes its loaded self, and the count is unchanged. The flags returned have one entry per layer, true exactly when that layer has an image. |
| Background.Scroll | html-website/pages/Background.js:39-44 | src, speed and image never change, and an unloaded layer is skipped. A loaded layer's new offset is the advanced offset less a whole number of image widths. It lands in `[0, width)` when the advanced offset is non-negative and in `(-width, 0]` when it is negative; one already in range keeps the advanced offset. |
| Background.ScrollInRange | html-website/pages/Background.js:40-42 | with non-negative offset, speed, time step and multiplier, a loaded layer's new offset is in `[0, width)` |
| Background.ScrollLayersAt | html-website/pages/Background.js:39-44 | layer i after `update` is layer i scrolled, so only offsets change and the list keeps its length and order |
| Background.Backgrounds.Update | html-website/pages/Background.js:39-44 | the in-place loop leaves exactly the scrolled list |
| Background.TileY | html-website/pages/Background.js:51 | the vertical tile position is never negative, is `height - img.height - 80` whenever that is not negative, and is 0 otherwise |
| Background.RowShape | html-website/pages/Background.js:53-57 | the tiling loop, as the function `Row`, draws tiles exactly `img.width` apart from its start. Every tile starts left of `width`, the last one reaches `width`, and the row is empty exactly when the start is not left of `width`. |
| Background.RowOf | html-website/pages/Background.js:53-57 | every tile of a row is the layer's image at the row's height |
| Background.RowCovers | html-website/pages/Background.js:53-57 | every point from the row's start up to `width` lies under some tile |
| Background.LayerTilesCover | html-website/pages/Background.js:49-57 | for a loaded layer with non-negative offset, the first tile starts at `-floor(offset) <= 0` and the tiles cover the whole viewport `[0, width)` |
| Background.TilesFromLoadedLayers | html-website/pages/Background.js:46-59 | every tile drawn comes from a loaded layer of the list, at a non-negative height |
| Background.DrawLayer | html-website/pages/Background.js:49-57 | the `while (x < width)` loop draws exactly the layer's row of tiles, or nothing for an unloaded layer |
| Background.Backgrounds.Render | html-website/pages/Background.js:46-59 | the tiles drawn are `Tiles` of the list: layer by layer in list order, exactly each layer's row |
| GameRules.InitialPlayer | html-website/pages/WorkingGameLogic.js:19 | the player starts at x 150, 80 by 80, at rest, not on the ground |
| GameRules.RectsIntersectSymmetric | html-website/pages/WorkingGameLogic.js:321-323 | the overlap test `RectsIntersect` is symmetric in its two rectangles |
| GameRules.TouchingRectsDoNotIntersect | html-website/pages/WorkingGameLogic.js:321-323 | rectangles that only share an edge do not intersect, since every comparison is strict |
| GameRules.Fall | html-website/pages/WorkingGameLogic.js:234-243 | after the physics step the player is never below the ground line. When the clamp fires, `y` is the ground line, `vy` is 0 and the player is on the ground. Otherwise velocity and position are integrated and `onGround` is unchanged. x, size, gravity and jump force never change. |
| GameRules.Jumped | html-website/pages/WorkingGameLogic.js:171-173 | a jump sets the velocity to the jump force whether or not the player is on the ground, and changes nothing else |
| GameRules.SpawnInterval | html-website/pages/WorkingGameLogic.js:247 | the spawn interval is at least 40, and at most 90 for a non-negative score |
| GameRules.ObstacleSpeed | html-website/pages/WorkingGameLogic.js:257 | for a non-negative score the speed is at least 4 |
| GameRules.DifficultyMonotone | html-website/pages/WorkingGameLogic.js:247-257 | a higher score never lengthens the spawn interval and never slows obstacles |
| GameRules.DifficultyExamples | html-website/pages/WorkingGameLogic.js:247-257 | interval and speed at scores 0, 50 and 1000: (90, 4), (80, 9), and the floor of 40 |
| GameRules.StageIndex | html-website/pages/WorkingGameLogic.js:328 | the stage index is in `[-1, 1]`, is 0 or 1 for a non-negative score, -1 or 0 for a negative one, and -1 for a score in `[-20, 0)` |
| GameRules.StageExamples | html-website/pages/WorkingGameLogic.js:328 | the stages alternate every 20 points: 0, then 1, then 0 |
| GameRules.HighScoreAfter | html-website/pages/WorkingGameLogic.js:304-306 | the best score never decreases. It becomes `floor(score)` only when the score beats it, and is otherwise unchanged. |
| GameRules.NewObstacle | html-website/pages/WorkingGameLogic.js:250-253 | a new obstacle starts at x 1020 with width 84 and a height in `[40, 280)`. It comes from the top exactly when the side draw is below 0.5: top obstacles start at y 0, bottom ones stand on the ground. |
| GameRules.CrownInterval | html-website/pages/WorkingGameLogic.js:266 | the next crown comes after 140 to 299 frames |
| GameRules.CrownY | html-website/pages/WorkingGameLogic.js:270-273 | whatever the draw, a crown's top edge is a whole number in `[40, 600 - 80 - 28 - 40]` |
| GameRules.NewCrown | html-website/pages/WorkingGameLogic.js:270-274 | a new crown starts at x 1030, is 38 by 28, and lies at least 40 pixels above the ground |
| GameRules.PickupText | html-website/pages/WorkingGameLogic.js:286 | the pickup label reads "+5", lives 60 frames, and sits at the crown's centre-top |
| GameRules.PickupTextsSpec | html-website/pages/WorkingGameLogic.js:282-287 | the k-th label added belongs to the k-th collected crown |
| GameRules.PickupTextsAppend | html-website/pages/WorkingGameLogic.js:286 | collecting one more crown appends exactly its label |
| GameRules.ObstaclePassSpec | html-website/pages/WorkingGameLogic.js:256-262 | after the obstacle pass every survivor satisfies `x + w >= -50`. The survivors are exactly the obstacles still on screen once moved, in original order, each moved left by exactly the distance. |
| GameRules.ObstacleRetires | html-website/pages/WorkingGameLogic.js:256-262 | obstacles are retired in bounded time: an obstacle that survives n passes, each moving it at least `step` to the left, had `n * step <= x + w + 50`. Survival over several ticks is `ObstacleSurvives`. |
| GameRules.SpawnedObstacleRetires | html-website/pages/WorkingGameLogic.js:250-262 | a freshly spawned obstacle survives at most `1154 / step` such passes |
| GameRules.CrownPassSpec | html-website/pages/WorkingGameLogic.js:277-288 | every kept crown is on screen and untouched, and every collected crown was on screen and touched the player. Both are exactly the moved crowns with that outcome: kept ones in list order, collected ones last index first. |
| GameRules.TextPassSpec | html-website/pages/WorkingGameLogic.js:290-296 | every remaining label has time to live, and each is an earlier label, in order, with the same x and text, y raised by `0.3 * delta` and ttl reduced by exactly `delta`. The labels kept are exactly those whose reduced ttl is still positive. |
| GameTick.CrownPhasePickups | html-website/pages/WorkingGameLogic.js:277-288 | the crown pass only appends labels, one per collected crown. It adds exactly 5 points per label, and removes at least as many crowns as it collects. |
| GameTick.TakenCollected | html-website/pages/WorkingGameLogic.js:277-285 | every crown the pass collects is one of its input crowns, moved left by the distance, still on screen and touching the player |
| GameTick.CrownPhaseLabels | html-website/pages/WorkingGameLogic.js:282-287 | every label the crown pass adds reads "+5", lives 60 frames, and is the pickup label of a crown the pass collected |
| GameTick.TickGameOver | html-website/pages/WorkingGameLogic.js:298-312 | on a fatal collision the run stops and no frame stays requested. The best score becomes `floor(score)` only if the score beats it. The tick returns before the survival increment and the stage check, so score and stage are as the collision found them. |
| GameTick.TickSurvives | html-website/pages/WorkingGameLogic.js:314-330 | without a collision, run state and best score are unchanged and the score grows by `0.01 * delta`. `lastBgStage` becomes the new stage index. |
| GameTick.TickHighScore | html-website/pages/WorkingGameLogic.js:304-306 | no tick lowers the best score |
| GameTick.TickScoreMonotone | html-website/pages/WorkingGameLogic.js:285-315 | with a non-negative time step, a tick never lowers the score |
| GameTick.TravelAtLeast | html-website/pages/WorkingGameLogic.js:257-259 | with a non-negative score and time step, obstacles and crowns move left at least `4 * delta` pixels per tick |
| GameTick.TickObstaclesAdvance | html-website/pages/WorkingGameLogic.js:245-262 | the obstacles after a tick are, in order, those present after the spawn step that the pass keeps, each moved left by exactly the tick's travel. With `TravelAtLeast` and `ObstacleRetires` this bounds how many ticks an obstacle lives. |
| GameTick.MovedSettles | html-website/pages/WorkingGameLogic.js:232-296 | before the collision test the player is at or above the ground, every obstacle and crown is on screen, and every label has time to live |
| GameTick.TickSettles | html-website/pages/WorkingGameLogic.js:232-319 | a tick from a state with non-negative score and a valid stage, with non-negative `delta`, leaves every one of those facts true: non-negative score, stage in `[-1, 1]` |
| GameTick.FrameDelta | html-website/pages/WorkingGameLogic.js:366-368 | the frame's `delta` is the gap since the last frame, capped at 40 ms, in 60 Hz frames (`/ 16.666`): the gap itself below the cap, the cap above it. It is not negative when the clock did not go back. |
| GameTick.FramesMonotone | html-website/pages/WorkingGameLogic.js:364-377 | over any chain of animation frames the best score never decreases, and with a clock that never goes back neither does the score |
| GameTick.ResetSettles | html-website/pages/WorkingGameLogic.js:188-206 | a reset world is settled and running, has score 0, and keeps its best score |
| GameLoop.CandidateFolders | html-website/pages/WorkingGameLogic.js:45-52 | six folders are tried, from `./src/images/` to `./assets/images/` |
| GameLoop.Lower | html-website/pages/WorkingGameLogic.js:93 | lower-casing keeps the length and maps each ASCII capital to its small letter (code point + 32), so no capital is left. Every other character is kept. |
| GameLoop.LowerIdempotent | html-website/pages/WorkingGameLogic.js:93 | lower-casing twice is lower-casing once |
| GameLoop.SelectedCharacter | html-website/pages/WorkingGameLogic.js:89-95 | the query parameter wins, then the stored choice, then `princess1`. An empty string counts as absent. The result is lower case. |
| GameLoop.CharacterFile | html-website/pages/WorkingGameLogic.js:124 | the `fileMap` lookup with its fallback: `princess2` and `princess3` get their own sprites, and any other name falls back to princess 1 |
| GameLoop.LoadImageFromCandidates | html-website/pages/WorkingGameLogic.js:73-86 | image and URL are both absent exactly when no candidate loads. Otherwise the URL is `folders[k] + name` for the first k that loads, with that image. |
| GameLoop.PresetLayersSpec | html-website/pages/WorkingGameLogic.js:353 | restoring the preset gives one fresh layer per preset source, in order, at speed 0.15, unloaded, at offset 0 |
| GameLoop.Sources | html-website/pages/WorkingGameLogic.js:116 | the captured preset is each layer's src, in order |
| GameLoop.RestoreKeepsSourcesNotSpeeds | html-website/pages/WorkingGameLogic.js:334-361 | switching to stage 1 and back restores the preset's sources but not its speeds: the second layer scrolled at 0.5 and now scrolls at 0.15 |
| GameLoop.FirstStageSwitch | html-website/pages/WorkingGameLogic.js:326-361 | the stage marker starts at -1, so the first surviving tick below 20 points already switches to stage 0. The freshly loaded layers give way to unloaded copies of the preset, all at speed 0.15. |
| GameLoop.Game.constructor | html-website/pages/WorkingGameLogic.js:12-36 | the module state before `init`: initial player, empty lists, zero timers and score, best score from storage, not running, stage -1, no images, no preset |
| GameLoop.Game.Jump | html-website/pages/WorkingGameLogic.js:171-173 | the player becomes its jumped self |
| GameLoop.Game.Start | html-website/pages/WorkingGameLogic.js:176-181 | does nothing while running. Otherwise it runs, stamps the clock and holds the new frame request. |
| GameLoop.Game.Stop | html-website/pages/WorkingGameLogic.js:182-186 | always leaves the run stopped and no frame requested |
| GameLoop.Game.Reset | html-website/pages/WorkingGameLogic.js:188-206 | the new state is `ResetWorld` of the old one. The lists are empty, the timers and score 0, and the player is at x 150 on the ground at rest. The run is running with a fresh frame request, and the best score is unchanged. |
| GameLoop.Game.ApplyPhysics | html-website/pages/WorkingGameLogic.js:233-243 | the in-place physics step is `Fall` on the player |
| GameLoop.Game.SpawnObstacle | html-website/pages/WorkingGameLogic.js:245-254 | the timer counts down. When it runs out it is reloaded with the spawn interval and one new obstacle is appended. |
| GameLoop.Game.MoveObstacles | html-website/pages/WorkingGameLogic.js:256-262 | the in-place backward splice loop leaves exactly the swept obstacle list |
| GameLoop.Game.SpawnCrown | html-website/pages/WorkingGameLogic.js:264-275 | the crown timer counts down. When it runs out it is reloaded from the draw and one new crown is appended. |
| GameLoop.Game.MoveCrowns | html-website/pages/WorkingGameLogic.js:277-288 | the in-place backward loop leaves the swept crown list. It adds 5 points and one label per collected crown. |
| GameLoop.Game.DecayTexts | html-website/pages/WorkingGameLogic.js:290-296 | the in-place backward loop leaves exactly the swept label list |
| GameLoop.Game.CheckBackgroundByScore | html-website/pages/WorkingGameLogic.js:326-361 | `lastBgStage` becomes the stage index. The layers are replaced only when the index changed: by the single original image on stage 1, otherwise by the preset sources, or left alone when no preset was captured. |
| GameLoop.Game.Advance | html-website/pages/WorkingGameLogic.js:232-296 | the phases before the collision test, in source order, have the effect the function `Moved` gives them |
| GameLoop.Game.Conclude | html-website/pages/WorkingGameLogic.js:298-318 | a collision with any obstacle gives the game-over state. Otherwise the survival score is added and the stage checked, and the layers change only on a stage change. |
| GameLoop.Game.Update | html-website/pages/WorkingGameLogic.js:232-319 | one tick has exactly the effect the function `Tick` gives it, and the layers change only when the stage index changes |
| GameLoop.Game.BeginFrame | html-website/pages/WorkingGameLogic.js:364-373 | the next frame is requested and the clock stamped. `delta` is the capped elapsed time in 60 Hz frames, and the background is scrolled by `2 * delta`. |
| GameLoop.Game.Frame | html-website/pages/WorkingGameLogic.js:364-377 | one animation frame has exactly the effect `GameTick.Frame` gives it. The stage switch of its tick applies to the scrolled layers. |
| GameLoop.Game.LoadAssets | html-website/pages/WorkingGameLogic.js:110-141 | the background layers are loaded and their sources captured as the preset. The character is `CharacterFile(SelectedCharacter(query, stored))`. Character and crown sprites come from the first candidate folder that has them; one found nowhere stays as it was. |
| GameLoop.Game.Init | html-website/pages/WorkingGameLogic.js:98-161 | without a game area nothing changes. Otherwise the assets are loaded and the new state is `ResetWorld` of the old one. |

## Behaviour of the code worth knowing

The model keeps each of these as the code has it:

- **Best score on load.** WorkingGameLogic.js:25 reads the stored best score as `parseInt(stored || '0', 10)`. An absent value and an empty string both give 0. Text that does not start with a number gives `NaN`. Here the stored best score is an integer parameter.
- **Best score on save.** The best score becomes `floor(score)`, and is written only on a fatal collision (WorkingGameLogic.js:304-306). A run ended by `stop()` never raises it.
- **Stage index.** WorkingGameLogic.js:328 takes `Math.floor(score / 20) % 2` with JS `%` (`GameRules.StageIndex` through `JsMath.IntRem`). That is -1 for a score in `[-20, 0)`, -1 or 0 for any negative score, and -1 is also the "no stage yet" marker.
- **Stage switch.** A stage switch starts the new layers at offset 0, and also sets every restored layer's speed to 0.15. The preset's 0.5 layer therefore does not come back (`GameLoop.RestoreKeepsSourcesNotSpeeds`). The marker starts at -1 and `reset` keeps it, so this already happens on the first surviving tick after `init` (`GameLoop.FirstStageSwitch`), and on the first tick of a run that follows one ended in stage 1.

## Left out

- Canvas drawing is not modelled: the game's `render`, `roundRect` and `createCanvasIn`. They are side effects on an opaque 2D context. `render` also draws `crownImg` for every crown even while it is still `null` (WorkingGameLogic.js:411).
- Image loading is asynchronous in the source: `new Image`, `onload`/`onerror` and Promises. Here it is synchronous and sequential, with `Fetch` deciding which URLs load. Layers finishing in a different order therefore does not arise. A loader that never answers is not modelled either.
- GameLoop.Game.CheckBackgroundByScore: the source replaces the layers synchronously. It then starts `Backgrounds.load` in a detached async closure, which may finish frames later. The model replaces the layers and stops there; that reload is `Background.Backgrounds.Load` run at some later time.
- The highScore read is not modelled. `localStorage` is read with `parseInt`, and stored text that does not start with a number gives `NaN`; the model takes the stored best score as an integer. Writes to local storage and to the `#highScore` element are left out.
- Retirement is bounded only when time passes: with `delta` 0 nothing moves, so nothing is retired. The lifetime bound is proved for obstacles; crowns move by the same `Travel` and are retired at the same edge, but their bound is not stated separately.
- `requestAnimationFrame`, `cancelAnimationFrame` and `performance.now()` are not modelled: their results are the parameters `handle` and `now`. Cancelling a frame request is modelled only as `rafId` becoming absent.
- `Math.random()` is not modelled: each tick takes its draws as a `Draws` value, in source order.
- GameLoop.Lower: `toLowerCase` is modelled on ASCII letters only; non-ASCII case mapping is not modelled.
- GameLoop.CharacterFile: the `fileMap[sel]` lookup is modelled on its three own keys. An inherited property name such as `constructor` would give a non-string in JS; that case is not modelled.
- Images of zero width are excluded by the `Image` type. The offset wrap would give `NaN` and the tiling loop would not end.
- IEEE-754 rounding is not modelled: numbers are `real`.
- The first two `loop` declarations (WorkingGameLogic.js:209-215 and 217-230) are not modelled; the third, at 364-377, is the one JS keeps.
- The input handlers `onKeyDown` and `onPointerDown` and the button wiring in `init` are not modelled, beyond the `jump`, `reset` and `stop` they call.
- html-website/pages/GameLogic.js, html-website/pages/Back/Obstacles.js and html-website/src/js/main.js are not part of this model. They are DOM and timer glue.
