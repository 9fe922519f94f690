# wheel-to-the-right: the phase machine and the hit rule

This project models the game logic of `wheel-to-the-right.py`, a small
Pyxel arcade game. The player is a marker at the bottom of a 128×128
screen. Holding the fire key (F) slides it to the right and speeds it up.
Releasing the key lets it coast to rest. After a settle delay a bullet
flies up the player's column, and it destroys the first enemy it comes
close to.

The game works frame by frame. `App` holds the player's column and
speed, the bullet's height (or no bullet), three enemies, and the current
phase. Each frame the phase's `update` changes `App` in place and returns
either itself or a freshly built successor. Building a successor applies
its entry effect:

- Ready puts the player back at column 4 with speed 0.
- Stop records the frame number.
- Fire launches the bullet at height 128.

The model has four modules:

- `Wrappers` (`wrappers.dfy`): the `Option` type used for the bullet.
- `GameState` (`game_state.dfy`): the whole state as a `World` value.
  - `Phase` is a datatype: `Ready | Moving | Stop(stoppedFrame) | Fire`.
  - Each phase's update and entry effect is a function, and `Step` runs one frame.
  - `Inv` is the invariant of every reachable state.
- `GameProps` (`game_props.dfy`): lemmas about those functions.
  - The hit rule: only the first enemy in range is hit.
  - One lemma per phase's frame.
  - The invariant holds on every run, and the player only moves right.
  - Enemies never revive, coasting takes `v` frames, and a shot lasts at most 47 frames.
- `Wheel` (`wheel.dfy`): the program's objects as classes.
  - `Enemy` has an `alive` flag, which is the program's `exists`; that word is reserved in Dafny.
  - `App` has one method per phase constructor and per phase update, plus the frame step `Update`.
  - Each method's postcondition ties the new state, `Model()`, to the matching `GameState` function of the old one.
  - `App.Update` also keeps `Valid()`, which is the invariant `Inv` plus "no enemy object listed twice".

Units: the player's column and speed are stored in tenths of a pixel, as
integers. So a speed of 1.5 is `playerVx == 15`, and the hit test
`abs(player_x - x) < 6` becomes `Abs(playerX - 10 * x) < 60`. On exact
values the two tests agree, and the ±0.1 speed steps are exact. Enemy
positions and the bullet's height are whole pixels, as in the program.

The three inputs a frame reads become explicit fields of
`GameState.Input`:

- `fireHeld` replaces `pyxel.btn(KEY_F)`.
- `firePressed` replaces `pyxel.btnp(KEY_F)`.
- `frame` replaces `pyxel.frame_count`.

These inputs are independent, and nothing is assumed about how they
relate from one frame to the next.

The model follows this file's code. Later versions of the game differ,
but this file has no scoring, combo, chain explosions, stages, or Title, Fail, Clear or GameOver phases. Its hit test is an axis-aligned
box check that never looks at `exists`. So a destroyed enemy, which is
no longer drawn, still absorbs a bullet (`GameProps.HiddenEnemyStillBlocks`).
The same test also lets at most one enemy be hit per frame, because the
first hit clears `bullet_y` before the later enemies are updated.

## Model

| member | source | states |
|---|---|---|
| `GameState.Hits` | wheel-to-the-right.py:21-25 | The hit test: a bullet in flight within 6 pixels of the enemy on both axes. It has no contract of its own; `GameState.EnemyUpdate` and `GameProps.HiddenEnemyStillBlocks` state what it decides, including that it never looks at whether the enemy is shown. |
| `GameState.EnemyUpdate` | wheel-to-the-right.py:20-27 | The bullet is consumed exactly when it is in flight and within 6 of the enemy on both axes. A hit hides the enemy and leaves no bullet. Without a hit, nothing changes. The position never changes, and no enemy is shown again by an update. |
| `GameState.UpdateEnemies` | wheel-to-the-right.py:114-115 | One pass over the enemy list, each enemy seeing the bullet the previous ones left. It keeps the list's length and every position, and revives no enemy. The bullet either survives unchanged or is consumed, and if it survives the list is unchanged. |
| `GameState.AdvanceBullet` | wheel-to-the-right.py:110-113 | No bullet stays no bullet. A bullet at height b survives if and only if b - 3 is not below -10, and then it is at b - 3. |
| `GameState.InitialEnemies` | wheel-to-the-right.py:39 | The three enemies at (64, 32), (32, 16) and (96, 16), all shown. It has no contract of its own; `GameState.Init` states it is three shown enemies, and `GameState.Layout` keeps their positions in every reachable state (`GameProps.StepPreservesInv`). |
| `GameState.Init` | wheel-to-the-right.py:37-41 | The start state is Ready, with no bullet, the player at column 4 with speed 0, and three shown enemies. It satisfies the invariant. |
| `GameState.EnterReady` | wheel-to-the-right.py:65-67 | Ready's entry effect. It has no contract of its own; `GameProps.FireFrame` states that entering Ready puts the player at column 4 with speed 0, and `Wheel.App.StartReady` is proved equal to it. |
| `GameState.EnterMoving` | wheel-to-the-right.py:76-77 | Moving has no entry effect. It has no contract of its own; `GameProps.ReadyFrame` states that only the phase changes. |
| `GameState.EnterStop` | wheel-to-the-right.py:90-91 | Stop's entry records the frame. It has no contract of its own; `GameProps.MovingFrame` states that a release gives Stop at this frame with nothing else changed. |
| `GameState.EnterFire` | wheel-to-the-right.py:106-107 | Fire's entry launches the bullet at 128. It has no contract of its own; `GameProps.StopFrame` states that Fire starts with the bullet at 128 and nothing else changed. |
| `GameState.ReadyUpdate` | wheel-to-the-right.py:69-72 | Ready's frame. It has no contract of its own; `GameProps.ReadyFrame` states its result. |
| `GameState.MovingUpdate` | wheel-to-the-right.py:79-84 | Moving's frame. It has no contract of its own; `GameProps.MovingFrame` states its result. |
| `GameState.StopUpdate` | wheel-to-the-right.py:93-101 | Stop's frame. It has no contract of its own; `GameProps.StopFrame` and `GameProps.CoastToRest` state its result. |
| `GameState.FireUpdate` | wheel-to-the-right.py:109-118 | Fire's frame. It has no contract of its own; `GameProps.FireFrame`, `GameProps.FireEndsWithin` and `GameProps.UnobstructedShotLasts` state its result. |
| `GameState.Step` | wheel-to-the-right.py:47-50 | One frame: the current phase's update. It has no contract of its own; the four per-phase frame lemmas state its result by phase, and `GameProps.StepPreservesInv` states that it keeps the invariant. |
| `GameProps.HiddenEnemyStillBlocks` | wheel-to-the-right.py:21-27 | A hidden enemy in range still consumes the bullet, and stays hidden. |
| `GameProps.FirstInRange` | wheel-to-the-right.py:114-115 | The index it returns is that of an enemy in range of the bullet, with no enemy before it in range, or the list's length when none is in range. |
| `GameProps.UpdateEnemiesFirstHit` | wheel-to-the-right.py:114-115 | With an enemy in range, the pass's result is exactly "no bullet, the first enemy in range hidden, every other enemy unchanged". With none in range, the bullet and the list are unchanged. |
| `GameProps.BulletConsumedIffInRange` | wheel-to-the-right.py:114-115 | A bullet in flight is consumed by the pass if and only if some enemy is in range of it. |
| `GameProps.AtMostOneEnemyChanges` | wheel-to-the-right.py:114-115 | In one pass, once one enemy has changed, no later enemy changes. |
| `GameProps.ReadyFrame` | wheel-to-the-right.py:69-72 | Ready goes to Moving on a just-pressed fire and changes nothing else. Without that press the frame leaves the whole state unchanged. |
| `GameProps.MovingFrame` | wheel-to-the-right.py:79-84 | While fire is held, speed becomes min(speed + 0.1, 1.5), stays at most 1.5, and is positive if it was not negative. The column grows by the new speed, and nothing else changes. On release the phase is Stop at this frame, with column and speed unchanged. |
| `GameProps.StopFrame` | wheel-to-the-right.py:93-101 | While the speed is positive, Stop moves by the speed, slows by 0.1 and refreshes the stop frame. It moves to Fire if and only if the speed is at most 0 and at least 20 frames have passed since the stop frame. Fire then starts with the bullet at 128 and nothing else changed. Otherwise, at rest, nothing changes. |
| `GameProps.FireFrame` | wheel-to-the-right.py:109-118 | The bullet and enemies after a Fire frame are the advanced bullet passed over the enemy list. The phase returns to Ready if and only if no bullet is left, and the player is then reset to column 4 with speed 0. Otherwise it stays Fire with the player unchanged. No enemy revives, and at most one enemy changes. |
| `GameProps.StepPreservesInv` | wheel-to-the-right.py:64-118 | Every phase's frame keeps the invariant `Inv`. Speed stays in [0, 1.5] and the column never goes below 4. Ready has the player at the start. A bullet exists only in Fire, at a height of 128 - 3k within [-10, 128]. The enemies keep their layout. |
| `GameProps.RunPreservesInv` | wheel-to-the-right.py:47-50 | Any sequence of frames keeps the invariant. |
| `GameProps.ReachableInv` | wheel-to-the-right.py:37-50 | Every state reached from the start state satisfies the invariant. |
| `GameProps.ForwardOnly` | wheel-to-the-right.py:64-101 | In a reachable state the player's column decreases only on the frame a shot ends and Ready resets it to column 4. |
| `GameProps.EnemiesNeverRevive` | wheel-to-the-right.py:15-27 | Over any run, the enemy list keeps its length and positions, and a hidden enemy is never shown again. |
| `GameProps.CoastToRest` | wheel-to-the-right.py:93-98 | From Stop with speed v, the next v frames, whatever their input, bring the speed to exactly 0. They move the player by v(v+1)/2 tenths and leave the phase at Stop with the last of those frames as the stop frame. |
| `GameProps.FireEndsWithin` | wheel-to-the-right.py:106-118 | From a reachable Fire state with bullet height b, the game is back in Ready within (b + 10) / 3 + 1 frames, whatever the input, and stays in Fire until then. |
| `GameProps.FireLastsAtMost47` | wheel-to-the-right.py:106-118 | Every shot ends within 47 frames. |
| `GameProps.ClearColumnPass` | wheel-to-the-right.py:114-115 | When no enemy is within 6 pixels of the player's column, the pass over the enemies leaves the bullet and every enemy unchanged. |
| `GameProps.UnobstructedShotLasts` | wheel-to-the-right.py:106-118 | With no enemy in the player's column, a reachable Fire state with bullet height b stays in Fire for exactly (b + 10) / 3 + 1 frames, whatever the input, and is in Ready right after them. |
| `GameProps.ClearShotLasts47` | wheel-to-the-right.py:106-118 | The 47-frame bound is reached: a shot from height 128 with no enemy in the column is in Fire for exactly 47 frames, then in Ready. |
| `Wheel.Enemy.constructor` | wheel-to-the-right.py:15-18 | A new enemy holds the given position and is shown. |
| `Wheel.Enemy.Update` | wheel-to-the-right.py:20-27 | The enemy's new value and the app's new bullet are `EnemyUpdate` of the old ones. Only this enemy and the app's bullet are modified. |
| `Wheel.App.constructor` | wheel-to-the-right.py:37-41 | A new app's state is `Init()` with three fresh, distinct enemy objects, and it is valid. |
| `Wheel.App.StartReady` | wheel-to-the-right.py:65-67 | Building Ready sets the player to column 4 with speed 0, returns Ready, and changes only those two fields. |
| `Wheel.App.StartMoving` | wheel-to-the-right.py:76-77 | Building Moving changes nothing and returns Moving. |
| `Wheel.App.StartStop` | wheel-to-the-right.py:90-91 | Building Stop changes nothing and returns Stop holding the current frame. |
| `Wheel.App.StartFire` | wheel-to-the-right.py:106-107 | Building Fire puts the bullet at height 128, returns Fire, and changes nothing else. |
| `Wheel.App.UpdateReady` | wheel-to-the-right.py:69-72 | The successor and unchanged state are those of `ReadyUpdate`. |
| `Wheel.App.UpdateMoving` | wheel-to-the-right.py:79-84 | The new state and successor are `MovingUpdate` of the old state. |
| `Wheel.App.UpdateStop` | wheel-to-the-right.py:93-101 | The new state and successor are `StopUpdate` of the old state and the phase's stop frame. |
| `Wheel.App.UpdateEnemyAt` | wheel-to-the-right.py:114-115 | The hit test of enemy i extends the pass over the first i enemies to the first i + 1: the bullet and those enemies are the pass's, and later enemies keep their values. |
| `Wheel.App.UpdateAllEnemies` | wheel-to-the-right.py:114-115 | The loop over the enemy objects leaves the bullet and the enemies' values equal to `UpdateEnemies` of the old ones. It requires that no enemy object is listed twice. |
| `Wheel.App.UpdateFire` | wheel-to-the-right.py:109-118 | The new state and successor are `FireUpdate` of the old state. |
| `Wheel.App.Update` | wheel-to-the-right.py:47-50 | One frame runs the current phase's update and installs the phase it returns. The new state is `GameState.Step` of the old state, and validity (the invariant) is kept. |

## Left out

- Drawing and the window: `pyxel.init`, `pyxel.run`, `App.run` and `App.draw` with its `cls`, `rect` and `text` calls (lines 42-45, 52-61). They are presentation and touch no game state.
- The quit key: `pyxel.btnp(KEY_Q)` followed by `pyxel.quit()` (lines 48-49) ends the process and is not part of a frame's state change.
- Input and clock: the key queries and `pyxel.frame_count` are parameters of each frame (`GameState.Input`). The model assumes nothing about how the frame counter advances.
- Floating point: the speed is kept in exact tenths. IEEE rounding of the repeated +0.1 and -0.1 steps (lines 81, 96) is not modelled. That rounding can leave a tiny positive or negative residue, which in the program can add one extra coasting frame or give a slightly negative resting speed. It can also flip the hit test (line 22) when the column is exactly 6 pixels from an enemy. For example, holding fire for 35 frames brings the player to rest at exactly 58.0 in the model (580 tenths), 6 pixels from the enemy at column 64: the model says no hit, while the program's drifted float may land on either side.
- Phase object identity: the program's Stop phase refreshes its own `stopped_frame` and returns itself. The model returns the value `Stop(frame)` instead. No other object holds a phase, so the two cannot be told apart.
- Features of later versions of the game are absent from this file, so the model has none of them: scoring, combos, chain explosions, explosion radii, stage tables, right-edge failure, and the Title, Fail, Clear and GameOver phases.
