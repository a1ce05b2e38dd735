# City War: the simulation core in Dafny

This project models the simulation half of a Missile-Command-style browser game: the
component `src/components/GameEngine.tsx` and the small session state machine of
`src/App.tsx`. Enemy rockets fall from the top of a normalised playfield towards
four cities and five missile batteries. The player clicks to launch missiles
from the nearest battery that can fire. Blasts destroy the rockets inside them
and score 20 points each. A click close to a rocket's path destroys the rocket
directly. The game is won at 1000 points and lost once three batteries are
destroyed.

Layout of the project:

- `types.dfy` (`Types`): the records of `src/types.ts` as datatypes. These are the
  rocket, missile, explosion, battery, city, point and session state.
- `geometry.dfy` (`Geometry`): the ground line, the rocket trajectory and the
  point-to-segment projection of the click test. It also holds the proof that
  comparing squared distances decides the same thing as comparing distances, and
  that the clamped projection is the nearest point of the segment.
- `difficulty.dfy` (`Difficulty`): the level thresholds, the level multiplier, the
  rocket speed and the post-spawn interval formula, with their bounds and
  monotonicity.
- `simulation.dfy` (`Simulation`): the constants of the frame, the initial layout,
  and the pure specification of each pass of a frame. That covers the motion of
  one rocket or missile, the impact, detonation and click blasts, the growth of a
  blast, blast collisions and their score, spawn targets, the battery choice and
  the terminal conditions. `Frame` bundles the score, the entity lists and the
  sites. `StartFrame` (the frame-start filters and the spawn step) and `Motion`
  (the three motion passes) say what one `update` does to a `Frame`. The module
  also holds the lemmas relating these functions to independent
  characterisations.
- `game_engine.dfy` (`GameEngine`): class `Engine`, whose fields are the `*Ref`
  variables of the component. Its methods `Reset`, `FireMissile`, `HandleClick` and
  `Update` follow `resetGame`, `fireMissile`, the trajectory block of
  `handleCanvasClick` and `update`. Each `forEach` of the source is a `while` loop,
  and each loop is proved against the specification function of its pass.
  `Valid()` is the invariant that holds between calls:
  - the score is a non-negative multiple of 20;
  - the level is in 1..3;
  - the interval is in [400, 2500];
  - the layout is the initial one, with ammo in [0, maxAmmo];
  - every rocket is on its path or marked dead;
  - every missile is on its path;
  - every blast is well formed.
- `app.dfy` (`App`): class `AppState`, holding the shell's `gameState`, `score` and
  `batteries`. Its methods are `handleStart` and `handleGameOver` plus the two
  setters the engine is given as callbacks. The pure transition function `Next` and
  its fold `Run` describe what a sequence of engine reports does to the session.

The engine's callbacks (`onScoreChange`, `onAmmoUpdate`, `onGameOver`) are calls
on an `AppState` passed in as `app`. The `gameState` prop that guards `fireMissile`
and `update` is a parameter: it is the state the shell last rendered the engine with.
The frame `time` and the results of `Math.random` are parameters too. These are
the spawn target draw `pick`, and the rocket's start `x` and `originX`.

A few places where the code differs from a plain reading of the game's rules.
The model follows the code in each:

- The first spawn interval is 2000 (`GameEngine.tsx` 37 and 60). Once rockets
  spawn, the formula gives 2500 at score 0 (`GameEngine.tsx` 234).
- The win and loss reports are two independent `if`s (`GameEngine.tsx` 307-313).
  Both can fire in one frame. The shell keeps the last one, so the session ends
  `Lost` (`Simulation.GameOverOutcome`, `App.WinThenLoss`).
- Nothing in the engine remembers that a report was sent. A report is made on
  every frame in which its condition holds and the `gameState` passed in is
  still `Playing`.
- Blast collisions do not look at `progress`. A rocket that is already marked
  dead, including one that reached the ground in the same frame, is scored
  again. A rocket inside several blasts is scored once per blast
  (`Simulation.PairHitsCountEveryBlast`).
- The click test has no `Playing` guard and also tests rockets that are
  already marked dead. The blast it pushes is centred on the projected point of
  the trajectory, not on the clicked point.
- That click blast never takes effect. It is pushed with radius 0
  (`GameEngine.tsx` 163-170). The next `update` starts by dropping every blast of
  radius 0 (`GameEngine.tsx` 205), before any blast grows. So a click blast is
  never drawn and never hits a rocket; only the intercepted rocket itself is
  destroyed and scored (`Simulation.ClickBlastsFiltered`). Impact and detonation
  blasts also start at radius 0, but they are pushed inside `update`, before the
  growth pass of the same frame, so they survive.

## Model

| member | source | states |
|---|---|---|
| Geometry.SquaredComparison | src/components/GameEngine.tsx:151-156 | a distance is below a bound exactly when the bound is positive and the squared distance is below the squared bound; this licenses replacing `Math.sqrt` by squared comparisons |
| Geometry.DistSq | src/components/GameEngine.tsx:151-153 | squared distance is never negative |
| Geometry.NearestParam | src/components/GameEngine.tsx:135-149 | the clamped projection lies on the rocket's trajectory at a parameter in [0, 1] |
| Geometry.ProjectionParamValue | src/components/GameEngine.tsx:132-140 | lenSq is always positive (the vertical extent is 0.9), so the `lenSq !== 0` branch is always taken and param * lenSq == dot |
| Geometry.NearestIsClosest | src/components/GameEngine.tsx:135-149 | the clamped projection is at least as close to the click as every point of the segment |
| Geometry.NearTrajectoryIff | src/components/GameEngine.tsx:126-156 | the nearest point is within a bound exactly when some point of the segment is |
| Difficulty.Level | src/components/GameEngine.tsx:214-216 | the level is always 1, 2 or 3 |
| Difficulty.LevelMultiplier | src/components/GameEngine.tsx:218 | the level multiplier lies in [1.0, 2.0] |
| Difficulty.LevelMonotone | src/components/GameEngine.tsx:214-218 | a higher score never gives a lower level or a lower multiplier |
| Difficulty.SpawnIntervalBounds | src/components/GameEngine.tsx:234 | for every non-negative score the post-spawn interval lies in [400, 2500] |
| Difficulty.SpawnIntervalNonIncreasing | src/components/GameEngine.tsx:214-234 | the post-spawn interval never grows as the score grows, across level boundaries too |
| Difficulty.RocketSpeedNonDecreasing | src/components/GameEngine.tsx:230 | rocket speed is positive and never drops as the score grows |
| App.LastEventDecides | src/App.tsx:22-29 | after any non-empty sequence of start and game-over events the session state is the one the last event sets, whatever came before |
| App.AppState.constructor | src/App.tsx:10-14 | the shell starts in Start with score 0 and no batteries |
| App.AppState.HandleStart | src/App.tsx:22-25 | from any state the session becomes Playing and the score 0; the batteries are untouched |
| App.AppState.HandleGameOver | src/App.tsx:27-29 | a win report sets Won, a loss report sets Lost, nothing else changes |
| App.AppState.SetScore | src/App.tsx:131 | the displayed score becomes exactly the value the engine reported |
| App.AppState.SetBatteries | src/App.tsx:133 | the displayed batteries become exactly the list the engine reported |
| App.WinThenLoss | src/App.tsx:27-29 | a win report followed by a loss report in one frame ends the session Lost |
| Simulation.InitialLayoutOk | src/components/GameEngine.tsx:21-33 | the initial five batteries and four cities satisfy the layout invariant, with every battery full and no site destroyed |
| Simulation.Filter | src/components/GameEngine.tsx:203-205 | the frame-start filter keeps exactly the elements that satisfy its test and never grows the list |
| Simulation.FilterCount | src/components/GameEngine.tsx:203-205 | the filter keeps every copy of an element that passes its test and no copy of one that fails, so equal entities are kept or dropped together |
| Simulation.FilterAppend | src/components/GameEngine.tsx:203-205 | filtering a concatenation filters each part and keeps their order |
| Simulation.FilterNone | src/components/GameEngine.tsx:205 | a filter that rejects every element of a list keeps nothing of it |
| Simulation.AdvanceRocket | src/components/GameEngine.tsx:239-241 | a moved rocket's position is the function of its progress: x = originX + (targetX - originX) p, y = 0.9 p; origin, target and speed are kept |
| Simulation.Kill | src/components/GameEngine.tsx:265 | a rocket marked dead (progress 2) is settled and keeps its position |
| Simulation.Settle | src/components/GameEngine.tsx:243-266 | a rocket on its path is settled after the impact step: in flight below 1, or marked dead; its position is kept |
| Simulation.Landings | src/components/GameEngine.tsx:238-267 | after the rocket pass every rocket is settled and none is added or removed |
| Simulation.ImpactBlasts | src/components/GameEngine.tsx:243-252 | every impact blast is fresh, at ground level, with maximum radius 0.06; there is at most one per rocket |
| Simulation.StruckIff | src/components/GameEngine.tsx:254-263 | a site is hit in the rocket pass exactly when some rocket of the pass landed within 0.04 of its x |
| Simulation.StruckKeepsLayout | src/components/GameEngine.tsx:254-264 | impacts keep the layout and the ammo, and never clear a destroyed flag |
| Simulation.AdvanceMissile | src/components/GameEngine.tsx:270-272 | a moved missile lies on its straight path from origin to target at its new progress |
| Simulation.DetonationBlasts | src/components/GameEngine.tsx:274-283 | every detonation blast is fresh with maximum radius 0.12; there is at most one per missile |
| Simulation.GrowExplosion | src/components/GameEngine.tsx:288-293 | an expanding blast grows by 0.003 m and stops expanding once it reaches its maximum; a shrinking blast stays shrinking, is never negative and never grows; a well-formed blast stays well formed |
| Simulation.GrownOk | src/components/GameEngine.tsx:287-293 | growing keeps every blast of the list well formed |
| Simulation.MotionKeepsFrameOk | src/components/GameEngine.tsx:238-305 | whatever the rockets and missiles were, the three motion passes restore the frame invariant: score a non-negative multiple of 20, layout and ammo bounds kept, every rocket settled, every missile on its path, every blast well formed; no site is restored, no ammo changes and the score rises by whole kills |
| Simulation.FrameKeepsFrameOk | src/components/GameEngine.tsx:203-305 | a whole frame (the filters, the spawn step and the three motion passes) keeps the frame invariant, restores no site, leaves the ammo alone and raises the score by whole kills |
| Simulation.CountHits | src/components/GameEngine.tsx:295-304 | one blast scores at most one hit per rocket |
| Simulation.CountHitsByPosition | src/components/GameEngine.tsx:295-304 | whether a blast scores a rocket depends only on the rocket's position, not on its progress |
| Simulation.HitByAnyIff | src/components/GameEngine.tsx:287-305 | the test that marks a rocket dead in the blast pass holds exactly when some blast of the pass contains the rocket |
| Simulation.BlastedDeadIff | src/components/GameEngine.tsx:243-305 | a rocket leaves the blast pass marked dead exactly when some blast of the pass contains it or it was already marked dead, for instance by landing in the rocket pass of the same frame |
| Simulation.CountHitsZeroIff | src/components/GameEngine.tsx:295-304 | a blast scores nothing exactly when no rocket is inside it |
| Simulation.PairHitsZeroIff | src/components/GameEngine.tsx:287-305 | the blast pass scores nothing exactly when no rocket is inside any blast |
| Simulation.PairHitsCountEveryBlast | src/components/GameEngine.tsx:287-305 | the score of the pass counts every blast's hits separately, so a rocket inside two blasts is scored twice |
| Simulation.BlastedSettled | src/components/GameEngine.tsx:295-304 | marking rockets dead keeps every rocket settled |
| Simulation.ClickBlastsFiltered | src/components/GameEngine.tsx:163-170 | the next frame's filter keeps exactly the blasts it would have kept had the click missed: no click blast survives to grow, be drawn or score |
| Simulation.ClickKeepsFrameOk | src/components/GameEngine.tsx:125-172 | a click keeps the score a non-negative multiple of 20, every rocket settled and every blast well formed |
| Simulation.ClickHitsIff | src/components/GameEngine.tsx:126-156 | a click intercepts a rocket exactly when some point of the rocket's trajectory is closer than 0.05 |
| Simulation.ClickBlast | src/components/GameEngine.tsx:158-169 | the click blast is fresh, with maximum radius 0.15, centred on the trajectory at the projected point |
| Simulation.ClickBlasts | src/components/GameEngine.tsx:125-172 | one click blast per intercepted rocket, each fresh with maximum radius 0.15 |
| Simulation.CountClickHits | src/components/GameEngine.tsx:125-172 | a click intercepts at most every rocket once |
| Simulation.LiveXs | src/components/GameEngine.tsx:221 | the candidate x values are exactly those of the sites not destroyed, at most one per site |
| Simulation.SpawnTargetsIff | src/components/GameEngine.tsx:221-222 | a spawn target is the x of a live city or battery and nothing else; there is none exactly when every site is destroyed |
| Simulation.StartRocketsSpec | src/components/GameEngine.tsx:203-233 | a frame starts from the rockets the filter keeps, in order, plus one more exactly when the interval has passed and some site stands; that rocket is at the top at progress 0, has the speed of the score and is aimed at the x of a standing site |
| Simulation.SpawnIndex | src/components/GameEngine.tsx:223 | the floor of a draw in [0, 1) times the number of targets is a valid index |
| Simulation.SelectBattery | src/components/GameEngine.tsx:75-86 | no battery is chosen exactly when none can fire; otherwise the chosen one can fire, is strictly closer to the target than every earlier one that can fire and no farther than every later one |
| Simulation.ClosestUnique | src/components/GameEngine.tsx:75-86 | the battery this rule chooses is unique |
| Simulation.Launch | src/components/GameEngine.tsx:91-101 | the new missile starts at its battery at progress 0 with speed 0.015, on its path to the target |
| Simulation.SpendKeepsAmmoBounds | src/components/GameEngine.tsx:88-89 | spending one round of a battery that can fire keeps ammo within [0, maxAmmo] |
| Simulation.GameOverOutcome | src/components/GameEngine.tsx:307-313 | after the terminal checks (win report, then loss report) the session is Lost when three batteries are destroyed, otherwise Won when the score reached 1000, otherwise unchanged |
| GameEngine.StrikeCities | src/components/GameEngine.tsx:254-258 | after one impact every city within 0.04 of the impact is destroyed and every other city is unchanged |
| GameEngine.StrikeBatteries | src/components/GameEngine.tsx:259-264 | after one impact every battery within 0.04 is destroyed, the others are unchanged, and the shell's battery list is the new one whenever one changed |
| GameEngine.Engine.constructor | src/components/GameEngine.tsx:16-37 | the refs start in the initial state, which satisfies the invariant |
| GameEngine.Engine.Reset | src/components/GameEngine.tsx:39-63 | the initial state: score 0, level 1, no entities, timers 0, interval 2000, the initial layout; the shell shows score 0 and these batteries |
| GameEngine.Engine.FireMissile | src/components/GameEngine.tsx:71-104 | when Playing and some battery can fire, exactly the chosen battery loses one round and exactly one missile from it to the target is appended; otherwise nothing changes; the invariant is kept |
| GameEngine.Engine.HandleClick | src/components/GameEngine.tsx:124-174 | every intercepted rocket is marked dead, scored 20 and given a click blast, with no Playing guard; then the fire command runs as FireMissile states |
| GameEngine.Engine.InterceptClick | src/components/GameEngine.tsx:125-172 | the rockets after the loop are Intercepted, the score rises by 20 per intercepted rocket, one click blast each is appended, and the shell sees the new score |
| GameEngine.Engine.ClickRocket | src/components/GameEngine.tsx:125-171 | a rocket whose trajectory passes within 0.05 of the click is marked dead, scored 20 and given its click blast; any other changes nothing |
| GameEngine.Engine.Update | src/components/GameEngine.tsx:200-314 | nothing changes unless Playing; otherwise the score, rockets, missiles, blasts, cities and batteries are Motion of StartFrame of the last state, the clock advances, the timers follow the spawn step, the level follows the score, the session goes where the terminal checks send it, and the invariant is kept |
| GameEngine.Engine.PlayFrame | src/components/GameEngine.tsx:203-313 | the same frame, past the guard: StartFrame, then Motion, then the terminal checks, keeping the invariant |
| GameEngine.Engine.BeginFrame | src/components/GameEngine.tsx:203-236 | after the filters, the clock, the level and the spawn step the lists are exactly StartFrame of the old ones; the timers are reset from the score exactly when the spawn step fires; the level matches the score and the interval stays in [400, 2500] |
| GameEngine.Engine.DropSpent | src/components/GameEngine.tsx:203-205 | the lists become exactly the filtered lists and nothing else changes |
| GameEngine.Engine.FinishFrame | src/components/GameEngine.tsx:238-305 | the score, lists and sites become Motion of the old ones; the level, clock and timers are unchanged |
| GameEngine.Engine.MoveAll | src/components/GameEngine.tsx:238-305 | the three passes in order give exactly Motion of the lists they are given, and the shell sees the new score and batteries |
| GameEngine.Engine.Spawn | src/components/GameEngine.tsx:220-236 | once the interval has passed and some site lives, exactly one rocket aimed at the drawn live site is appended and the timers are reset from the score; otherwise rockets and timers are unchanged |
| GameEngine.Engine.MoveRockets | src/components/GameEngine.tsx:238-267 | the rockets, blasts, cities and batteries after the pass are exactly Landings, the impact blasts, and the sites struck by the landed rockets; the score is unchanged |
| GameEngine.Engine.RocketStep | src/components/GameEngine.tsx:239-266 | one iteration of the rocket pass takes the pass from its first i rockets to its first i + 1 |
| GameEngine.Engine.LandRocket | src/components/GameEngine.tsx:243-266 | a rocket at the ground pushes one impact blast, destroys exactly the sites within 0.04 of its target and is marked dead; any other rocket changes nothing |
| GameEngine.Engine.MoveMissiles | src/components/GameEngine.tsx:269-285 | every missile moves along its path and each arrived one appends one detonation blast |
| GameEngine.Engine.ResolveBlasts | src/components/GameEngine.tsx:287-305 | the blasts are grown, every rocket inside some blast is marked dead, and the score rises by 20 per (blast, rocket) pair |
| GameEngine.Engine.ScoreBlast | src/components/GameEngine.tsx:295-304 | the rockets inside one blast are marked dead and each adds 20, and the shell sees the new score |
| GameEngine.Engine.CheckGameOver | src/components/GameEngine.tsx:307-313 | the win report, then the loss report, move the session as Run of these events does; no engine state changes |

## Left out

- `draw` and its canvas rendering, `playExplosionSound` (Web Audio) and the JSX of
  `src/App.tsx`: presentation and side effects only.
- `loop`, `requestAnimationFrame`, the resize listener and the `useEffect` that
  calls `resetGame` when the state becomes Playing: host scheduling. `Reset` models
  the call itself, not when it happens.
- Mouse and touch decoding with `getBoundingClientRect`: `HandleClick` takes the
  normalised point.
- `Math.random` and the frame clock are parameters. The random string ids of
  rockets, missiles and blasts are dropped.
- IEEE-754 arithmetic and `Math.sqrt`: positions, speeds and radii are exact reals,
  and distances are compared squared. At the strict `<` boundaries (the click
  test, the site tolerance and the blast test) a rounded computation can decide
  the other way.
- Aliasing. The source's battery objects are shared between the engine and the
  list shown by the shell. `ammo--` therefore also changes the shown battery
  before `onAmmoUpdate` runs. The model copies values, so the shell's list
  changes only through `SetBatteries`.
- The re-rendering of the component between frames and the closure over the
  `gameState` prop: the prop is passed to each call as a parameter.
- `src/services/geminiService.ts` (an external text service) and
  `src/constants.ts` (interface strings) are not part of this model.
