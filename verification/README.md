# FlapyRed in Dafny

A model of the game logic of `flapyred.py`, the `Flappy` class of a
Flappy-Bird clone, with the pygame drawing, sound and asset loading taken
away. What remains is:

- the scene state machine `play` / `game_next_state` / `is_game_start_state`
  / `game_input`: six scenes (INIT, PREPARE, WELCOME, FLY, GAMEOVER, EXIT), a
  per-scene tick counter incremented before every handler run and reset only
  by a real change of scene, and the fold that turns one tick's events into
  IDLE, ACTION or EXIT;
- the non-drawing logic of the WELCOME, FLY and GAMEOVER handlers: the welcome
  bob and wing animation, FLY's flap, gravity, rotation, floor clamp, score
  band and pipe shift/append/evict, GAMEOVER's fall, rotation and restart
  guard;
- the collision detector `checkCrash` / `pixelCollision` and the hit-mask
  builder `getHitmask`;
- the pipe generator `getRandomPipe`, with the random draw as a parameter;
- the digit layout of `showScore`, as a list of (digit, x) draw commands.

The run state is an immutable record (`Scenes.Game`) and each handler is a
pure function from one record to the next. The platform supplies, per loop
iteration, a `Machine.Tick`: the events of that tick, the random gap draws
the tick may consume, and the milliseconds the frame clock reports. Sprite
sizes, hit masks and pygame's float-to-pixel coercion come in an
`Sprites.Assets` record; the digit sprites' widths are a parameter of
`Score.ShowScore`.

Files, one module each: `consts.dfy` (screen constants, Python `int()`),
`geometry.dfy` (boxes, masks, `clip`), `hitmask.dfy`, `collision.dfy`,
`pipes.dfy`, `sprites.dfy`, `crash.dfy`, `score.dfy`, `input.dfy`,
`physics.dfy`, `scenes.dfy`, `machine.dfy`.

Numbers: `BASEY`, the player's y and pipe x are `real` (`BASEY` is
`512 * 0.79 = 404.48`, pipe speed is fractional); velocities, rotation, score
and mask indices are `int`. Python's `int()` on a float is modelled as
truncation toward zero (`Consts.Trunc`) and `int(framenum / 16)` as integer
division, the tick being non-negative.

Facts about the code that the model keeps and that a reader might not expect:

- the welcome bob `(f % 16 - 8) * (-2 * (int(f / 16) % 2) + 1)`
  (flapyred.py:234) climbs for 16 ticks and falls for 16, so it repeats every
  32 ticks;
- `playerMinVelY` is set to -8 with the comment "min vel along Y, max ascend
  speed" (flapyred.py:275) but is never read, so a flap puts the velocity at
  -9 and FLY's velocity range is [-9, 10];
- GAMEOVER adds 2 to the velocity while it is below 15 (flapyred.py:384-385),
  so the velocity can reach 16;
- nothing in the scoring rule itself (flapyred.py:297-300) prevents a pipe
  from scoring on two ticks. A frame clock reading of at least 32 ms as FLY
  starts (pacing at 30 ticks a second aims at 33 ms) is enough to rule it
  out, since the pipe speed is then at least 4 pixels a tick, the width of
  the scoring band; at some shorter readings, such as 28 ms, a pipe does
  score twice;
- GAMEOVER lets the player fall only while its lower edge is above
  `BASEY - 1`, and a restart is accepted from that same line on
  (flapyred.py:375-381).

## Model

| member | source | states |
|---|---|---|
| Consts.Trunc | flapyred.py:214-215 | `int()` of a float truncates toward zero: the result is within one of the argument, on the zero side |
| Consts.ScreenConstants | flapyred.py:29-33 | the ground line is 404.48 and the player's column `int(288 * 0.2)` is 57 |
| Geometry.Clip | flapyred.py:462 | `clip` contains exactly the pixels common to both boxes, and is a zero-size box at the first box's corner when there are none |
| Hitmask.GetHitmask | flapyred.py:489-496 | the mask has one column per x of the image's width and one entry per y of its height, true exactly where the alpha at (x, y) is non-zero |
| Collision.PixelCollision | flapyred.py:460-474 | the clip-then-scan loop answers true exactly when some screen pixel lies in both boxes and is opaque in both masks at its local coordinates; a zero-width or zero-height intersection answers false |
| Collision.OverlapSymmetric | flapyred.py:460-474 | swapping the two (box, mask) arguments does not change the collision verdict |
| Collision.EmptyClipNoCollision | flapyred.py:462-465 | boxes whose intersection has zero width or height never collide |
| Pipes.GapConstants | flapyred.py:479-480 | the gap draw is below `int(0.6 * BASEY - 100) = 142` and the gap top starts at `int(0.2 * BASEY) = 80` |
| Pipes.RandomPipe | flapyred.py:476-487 | both pipes sit at x = 298; the upper pipe's bottom edge is the gap top, which lies in [80, 221]; the lower pipe starts 100 below it |
| Pipes.RandomPipeCoversBand | flapyred.py:479-487 | every gap top of [80, 221] comes from one draw and different draws give different pipe pairs |
| Pipes.Shift | flapyred.py:326-328 | every pipe moves by the pipe velocity and keeps its y |
| Pipes.MovePipes | flapyred.py:325-339 | the lists stay paired and at most three long; a pair is appended exactly when fewer than three are live and the shifted lead x is in (0, 5), the appended pair is the generated one, the lead pair is evicted exactly when its shifted x is left of minus the pipe width, and every surviving pair is the old one shifted |
| Crash.PairsCollideFrom | flapyred.py:441-456 | the zipped scan finds a collision exactly when some pair from index k on has its upper or lower pipe colliding with the player |
| Crash.CheckCrash | flapyred.py:425-458 | the ground flag is set exactly when the player's lower edge reaches `BASEY - 1`, and then the verdict is a crash; otherwise it is a crash exactly when some zipped pipe pair collides with the player at pixel level |
| Crash.GroundCrashIgnoresPipes | flapyred.py:431-433 | on the ground the verdict is `[True, True]` whatever the pipe lists are, empty ones included |
| Score.Digits | flapyred.py:413 | the digits of `str(score)` are decimal digits without a leading zero whose decimal value is the score |
| Score.DigitsOfValue | flapyred.py:413 | splitting the value of a well-formed digit string gives that digit string back |
| Score.Place | flapyred.py:419-423 | the digits are drawn left to right from the start offset, each one the previous digit's width further on, the last ending at the start plus the total width |
| Score.ShowScore | flapyred.py:411-423 | one draw command per decimal digit of the score, abutting, with the right margin equal to the left one |
| Input.Translate | flapyred.py:107-117 | the tick's input is IDLE exactly when no event is a quit, an Escape, a Space or an Up press; otherwise it is what the last such event asks for |
| Input.IgnoredEventsKeepInput | flapyred.py:109-115 | events that match no rule do not change the tick's input |
| Physics.Fall | flapyred.py:322-323 | after the move the player's lower edge is at or above the ground, on it exactly when the velocity was at least the distance left, and otherwise the player moved by exactly the velocity |
| Physics.Wave | flapyred.py:232-234 | the bob offset lies in [-8, 8] |
| Physics.WaveShape | flapyred.py:232-234 | the bob is -8 at tick 0, moves by exactly one pixel per tick and repeats every 32 ticks |
| Physics.NextFrame | flapyred.py:209-210 | the wing animation cycles through frames 0, 1, 2, 1, so the frame shown is always 0, 1 or 2 |
| Physics.GravityFly | flapyred.py:313-315 | FLY's gravity keeps a velocity in [-9, 10] in that range, does nothing on a flap tick or at the maximum, and otherwise adds exactly 1 |
| Physics.RotateFly | flapyred.py:309-320 | FLY's rotation stays in [-90, 45] and 45 minus a multiple of 3, becomes 45 on a flap tick, otherwise drops by 3 while above -90 and stays put from -90 down |
| Physics.GravityOver | flapyred.py:383-385 | GAMEOVER's velocity gains exactly 2 while below 15, stays put from 15 on, and so never exceeds 16 once at most 16 |
| Physics.GameOverVelocityPeak | flapyred.py:383-385 | the GAMEOVER velocity does reach 16 |
| Physics.LandingScenario | flapyred.py:313-323 | a gravity-only FLY tick from velocity 9 three pixels above the ground ends on the ground at velocity 10 |
| Scenes.NextState | flapyred.py:97-101 | `game_next_state` always ends in the requested scene, resets the tick to 0 exactly when the scene changes, and touches nothing else |
| Scenes.NextStateResetsTick | flapyred.py:97-105 | a real change of scene resets the tick to 0, so the next iteration's increment makes `is_game_start_state` (`IsStart`, tick 1) true; asking for the current scene changes nothing |
| Scenes.WelcomeStep | flapyred.py:202-234 | WELCOME moves to FLY exactly on ACTION, and then with tick 0 and bob offset -8; otherwise it keeps its tick and the bob is the wave of the tick; the player's height and column are set once on the first tick and not moved by the bob; the wing frame advances on every 5th loop and the loop counter counts modulo 30; nothing else changes |
| Scenes.FlyStart | flapyred.py:246-281 | FLY starts with score 0, the player moved by the welcome bob, two well-paired pipe pairs at x 488 and 632 whose gaps come from the two draws, pipe speed `-128 * ms / 1000` from the frame clock (at most -4 from 32 ms on), velocity -9, rotation 45, the animation position kept from WELCOME; no other field changes |
| Scenes.Flap | flapyred.py:282-287 | ACTION flaps exactly when the player is below twice its height above the screen; a flap sets velocity -9, and nothing else changes |
| Scenes.FlapBelowMinVel | flapyred.py:273-285 | the flap velocity -9 lies below `playerMinVelY`, which is never enforced |
| Scenes.Passed | flapyred.py:295-300 | the points of a tick are at most the number of upper pipes, zero exactly when no pipe's middle is in the 4-pixel band ending at the player's middle, and all of them exactly when every pipe's is |
| Scenes.PassedCountsScoringPipes | flapyred.py:295-300 | the points of a tick are exactly the number of upper pipes whose middle is in the band, counted as a set of indices |
| Scenes.ScoresOncePerPipe | flapyred.py:269-300 | with at least 32 ms on the frame clock, a pipe shifted any positive number of ticks at that speed is never in the scoring band at both positions |
| Scenes.FlyMoveScoresOnce | flapyred.py:295-339 | on a FLY tick with pipe speed at most -4, an upper pipe that scores before the move is out of the scoring band after it, at its index after eviction |
| Scenes.ShortFrameScoresTwice | flapyred.py:259-300 | with 28 ms on the clock and the 34- and 52-pixel sprites, the second starting pipe after 163 moves is at x = 47.808 and scores on that FLY tick and on the next one |
| Scenes.FlyMove | flapyred.py:295-339 | after a crash-free test the score grows by the points of the tick, the wing frame advances on every 3rd loop, velocity and rotation take one FLY step, the player falls by `Fall` with the new velocity, the pipes scroll, append and evict as `MovePipes` says and stay paired and at most three long; the column, pipe speed and every other field are kept |
| Scenes.FlyStep | flapyred.py:243-339 | the recorded crash test is `checkCrash` of the set-up and flapped state; FLY moves to GAMEOVER exactly when it reports a hit, and then leaves every other field as the crash test saw it; otherwise the result is the rest of the tick (`FlyMove`) applied to that state, which keeps its tick, clears the flap and never lowers the score after its first tick; the pipe speed is set from the clock on the first tick and kept after |
| Scenes.FlyStepKeepsBounds | flapyred.py:272-320 | FLY's first tick establishes, and every later tick keeps, velocity in [-9, 10], rotation in [-90, 45] congruent to 45 mod 3, no pending flap, at most three paired pipes, the player above the ground |
| Scenes.GameOverStep | flapyred.py:360-390 | GAMEOVER moves to PREPARE exactly on ACTION with the player on the ground and changes nothing else then; otherwise the player falls by `Fall` with the old velocity while above the ground line and stays put on it, the velocity takes one `GravityOver` step, the rotation drops by 7 only after a pipe crash and while above -90, and no other field changes |
| Scenes.Handle | flapyred.py:79-94 | each handler either keeps the scene and its tick or changes the scene and resets the tick; EXIT stays EXIT and no handler ever switches to INIT |
| Machine.Enter | flapyred.py:91-93 | the handler sees EXIT on an exit request and the current scene otherwise, with tick 1 after a change and one more otherwise |
| Machine.Step | flapyred.py:91-95 | one loop iteration keeps the frame position, frame and pipe-list shape usable |
| Machine.Views | flapyred.py:88-95 | the loop runs one handler per tick, the first with the state after input and tick increment; no view but the last is EXIT, and when the views stop before the ticks run out the last one is EXIT |
| Machine.Run | flapyred.py:88-95 | the loop produces one end-of-iteration state per handler run: the first is one iteration from the start state, each later one is one iteration from the state before it, and every one keeps `Inv` |
| Machine.ViewsFollowRun | flapyred.py:88-95 | every handler run after the first sees the state the previous iteration ended in, after input and the tick increment, so the views and the end-of-iteration states describe one run |
| Machine.ViewsKeepTickDiscipline | flapyred.py:91-101 | along any run each handler sees tick 1 after a change of scene and one more than the previous run otherwise |
| Machine.SceneTicks | flapyred.py:88-105 | from a new game the first handler run is INIT (or EXIT, see Left out) at tick 1 and the tick discipline holds throughout |
| Machine.StepResetsTick | flapyred.py:93-101 | after an iteration the tick is the handler's own if the scene did not change, and 0 if it did |
| Machine.ViewsAvoidInit | flapyred.py:88-94 | once out of INIT no handler run is in INIT again |
| Machine.ExitEndsViews | flapyred.py:91-95 | an EXIT handler run is the last one of the loop |
| Machine.InitOnlyFirst | flapyred.py:88-94 | INIT runs only as the first handler run of a game |
| Machine.ExitFromAnywhere | flapyred.py:107-119 | an exit request switches to EXIT before dispatch, so the EXIT handler runs that same iteration at tick 1 |
| Machine.InitAndPrepareAdvance | flapyred.py:163-200 | INIT moves to PREPARE and PREPARE to WELCOME unconditionally |
| Machine.WelcomeLeavesOnAction | flapyred.py:224-225 | WELCOME moves to FLY exactly on ACTION |
| Machine.FlyLeavesOnCrash | flapyred.py:288-293 | FLY moves to GAMEOVER exactly when that tick's `checkCrash(...)[0]` holds, and records that verdict |
| Machine.GameOverRestarts | flapyred.py:374-377 | GAMEOVER moves to PREPARE exactly on ACTION with `playery + playerHeight >= BASEY - 1` |
| Machine.FlyStartsAboveWelcome | flapyred.py:224-249 | ACTION in WELCOME resets the tick before the bob is computed, so FLY starts exactly 8 pixels above WELCOME's resting height |
| Machine.StepKeepsSound | flapyred.py:243-390 | an iteration keeps FLY's bounds, and in GAMEOVER a recorded crash and a velocity in [-9, 16] |
| Machine.RunStaysSound | flapyred.py:243-390 | every end-of-iteration state of a run from a sound state is sound |
| Machine.GameStaysSound | flapyred.py:243-390 | every state a new game goes through keeps FLY's and GAMEOVER's bounds |
| Machine.FlyScoreNeverDrops | flapyred.py:295-300 | within one FLY scene the score never decreases |
| Machine.GroundCrashFreezesRotation | flapyred.py:387-390 | after a ground crash GAMEOVER never changes the rotation |

## Left out

- Drawing, image loading, `convert`/`flip`/`rotate`, `blit`, `display.update`,
  `pg.init`/`pg.quit`, sounds and `print`: platform I/O. INIT and PREPARE keep
  only their change of scene; EXIT's handler does nothing.
- The random choice of background, player colour and pipe colour in PREPARE,
  and the hit masks it computes: the chosen sprites' sizes and masks are the
  `Assets` parameter; `GetHitmask` models how each mask is derived.
- `random.randrange` in `getRandomPipe`: the draw is a parameter, constrained
  to the values `randrange(0, 142)` returns.
- `FPSCLOCK.tick`: the milliseconds it returns when FLY starts are a parameter
  of the tick; the frame pacing itself is not modelled.
- pygame's `Rect` coercion of float coordinates and its `clip` routine: boxes
  are integer boxes, the float-to-pixel coercion is the `toPixel` parameter
  of `Assets`, and `clip` is modelled as box intersection.
- The ground scroll (`basex`, `baseShift`), the message position, the
  visible-rotation threshold `playerRotThr` and GAMEOVER's `playerx = 57.6`:
  they only feed drawing calls.
- The bare `try/except` around event polling and presentation.
- `playerAccY`, `playerVelRot`, `playerMaxVelY`, `playerFlapAcc` and GAMEOVER's
  `playerHeight` are constants of the scene rather than fields, because the
  source assigns each at scene start and reads it only later in that scene.
- Player frames of different sizes: `Assets.Valid` requires the three player
  frames to share one size, since `checkCrash` builds the player's box from
  frame 0 while testing the mask of the current frame, and FLY's floor clamp
  uses the current frame's height.
- Scenes.FlyStep: the pipe lists are required to have equal lengths, which
  every reachable state satisfies (`Scenes.Inv`); unequal lists would make the
  source's `zip` and `pop(0)` diverge.
- `Machine.Run` and `Machine.Views` use one `Assets` for a whole run. PREPARE
  picks a new player colour and pipe colour and recomputes their masks for
  every game, so after GAMEOVER returns to PREPARE the sizes and masks may
  change; each lemma about a run holds for runs in which they do not.
- Floating-point rounding: pipe x accumulates `-128 * ms / 1000` in binary
  floating point, while the model adds exact reals. Near their boundaries the
  append window (0, 5), the eviction test `x < -pipeWidth` and the 4-pixel
  score band can decide differently in the program. `BASEY` (`512 * 0.79`)
  and the player's y after the floor clamp `BASEY - playery - h`
  (flapyred.py:323, 381) are floats too, so `Fall`'s landing exactly on
  `BaseY` is exact only in the model; no branch depends on it, because the
  ground tests compare against `BASEY - 1`.
- Machine.SceneTicks: the first tick may read a QUIT in the model. In the
  program the first event poll runs before INIT calls `pg.init`, so it raises,
  the bare `except` leaves the input IDLE, and the first handler run is
  always INIT. The model allows more runs than the program has.
- The fields the source leaves as `None` until a scene sets them start at 0,
  0.0, empty lists or false in `Scenes.NewGame`.
