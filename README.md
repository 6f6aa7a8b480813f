# Snake game engine — a Dafny model

This project models the simulation core of a browser Snake game on a 20 × 20 grid. The
game has a single-player mode and a two-player mode. It has plain food, a special food,
power-ups (slow-motion, invincible, double-score, phase-through) and obstacles. The model
covers two source files:

- `src/utils/gameUtils.ts`, modelled in `game_utils.dfy` (module `GameUtils`). It holds the
  geometry, scoring and speed formulas and the random cell samplers.
- `src/hooks/useGame.ts`, the game hook. It keeps one `GameState` record and replaces it
  from every handler, tick and timer:
  - `game_rules.dfy` has the shared state invariant, occupancy and list helpers;
  - `handlers.dfy` has start, reset, pause, menu, steering and power-up activation;
  - `single_tick.dfy` has `moveSnake`;
  - `multi_tick.dfy` has `moveMultiPlayerSnakes`;
  - `timers.dfy` has the food, obstacle-clone and cleanup timers;
  - `use_game.dfy` has the `moveSnake` dispatcher and the class `Game`, which holds the
    state cell.

The value types of `src/types.ts` are in `types.dfy`.

Randomness and the clock are inputs:

- **Samplers.** Each `getRandomPosition` call gets its own finite run of in-grid cell draws.
  The resampling loop returns the first draw that is not excluded (`FirstFree`).
  - The sampler's precondition is exactly that its loop terminates.
  - Callers that sample from computed exclusion lists require a *fair* run (every grid cell
    appears in it) and room on the grid. A pigeonhole lemma turns these into termination.
    The source itself loops forever on a full grid.
- **Rolls.** The 20% special-food roll and the 15% power-up roll are booleans.
- **Power-up kind.** The kind is an index below 4 into `POWER_UP_TYPES`.
- **Time.** `Date.now()` is an integer `now`.
- **Obstacle lifetime.** The per-poll lifetime `4000 + Math.random() * 5000` is one integer
  per obstacle. Ages are whole milliseconds, so it lies between 4000 and 9000.

The invariant `ValidState` holds on every reachable state. It says:

- a single-player snake has a head;
- a two-player game has player 1 then player 2, each with a head;
- the plain foods hold no cell twice;
- at most one power-up lies on the grid.

Every handler, tick and timer preserves it.

## Model

| member | source | states |
|---|---|---|
| GameUtils.FirstFreeFrom | src/utils/gameUtils.ts:9-14 | the resampling loop's stopping index is the first draw at or after the start that is not excluded; every earlier draw was excluded |
| GameUtils.GetRandomPosition | src/utils/gameUtils.ts:7-16 | the returned cell is on the grid and not excluded, and it is the first non-excluded draw; the loop is proved to stop exactly when such a draw exists |
| GameUtils.DistinctCoveredIsShorter | src/utils/gameUtils.ts:7-16 | a duplicate-free list covered by another list is no longer than it (the counting step of the pigeonhole argument) |
| GameUtils.FreeCellExists | src/utils/gameUtils.ts:7-16 | fewer than 400 excluded positions always leave a free grid cell, so the sampler can succeed |
| GameUtils.FairDrawsReachFreeCell | src/utils/gameUtils.ts:7-16 | a run of draws that visits every cell reaches a free one whenever fewer than 400 cells are excluded |
| GameUtils.IsPositionEqual | src/utils/gameUtils.ts:18-20 | comparing both coordinates is exactly equality of positions |
| GameUtils.ObstaclePositions | src/hooks/useGame.ts:468 | the mapped list has one position per obstacle, index by index, and a cell is in it exactly when an obstacle stands there |
| GameUtils.IsValidMove | src/utils/gameUtils.ts:22-44 | out of the grid is never valid, even with phase-through; an in-grid cell is valid with phase-through; otherwise it is valid exactly when no obstacle is on it; the body is never consulted |
| GameUtils.IsValidMoveAsCalled | src/hooks/useGame.ts:440 | the four-argument call as written accepts exactly the in-grid cells, ignoring obstacles |
| GameUtils.AsCalledIgnoresObstacles | src/hooks/useGame.ts:440 | a concrete head on an obstacle that the call as written accepts and the declared check refuses |
| GameUtils.GetOppositeDirection | src/utils/gameUtils.ts:61-68 | the opposite of a direction is never that direction |
| GameUtils.OppositeIsInvolution | src/utils/gameUtils.ts:61-68 | taking the opposite twice gives back the direction |
| GameUtils.OppositeIffUndoes | src/utils/gameUtils.ts:46-68 | a second step in direction e undoes a step in direction d exactly when e is the opposite of d |
| GameUtils.GetNextPosition | src/utils/gameUtils.ts:46-59 | up and down keep the column and left and right keep the row; up and left lower the coordinate sum by one, down and right raise it by one (y grows downwards) |
| GameUtils.StepIsUnitMove | src/utils/gameUtils.ts:46-59 | a step changes one coordinate only, lands at Manhattan distance 1, and stepping the opposite way returns to the start |
| GameUtils.GetManhattanDistance | src/utils/gameUtils.ts:99-101 | the distance is zero exactly for equal positions |
| GameUtils.DistanceIsSymmetric | src/utils/gameUtils.ts:99-101 | the distance does not depend on the argument order |
| GameUtils.CalculateScore | src/utils/gameUtils.ts:70-73 | base times level, doubled exactly under double-score |
| GameUtils.CalculateSpeed | src/utils/gameUtils.ts:75-78 | the interval is at least 50 ms (100 ms with slow-motion), 150 ms at level 1 and the floor from level 11 on |
| GameUtils.SpeedNonIncreasing | src/utils/gameUtils.ts:75-78 | a higher level never gives a longer interval |
| GameUtils.SlowMotionDoubles | src/utils/gameUtils.ts:75-78 | slow-motion gives exactly twice the interval at every level |
| GameUtils.GenerateObstacles | src/utils/gameUtils.ts:80-96 | exactly min(floor(level / 3), 8) obstacles (none for negative levels), on pairwise distinct in-grid cells outside the excluded ones, stamped with the current time |
| GameUtils.GenerateObstaclesAwayFromSnakeHead | src/utils/gameUtils.ts:104-138 | at most one obstacle; when present it is in the grid, at least minDistance from the head, not excluded, stamped now, and it is the first acceptable draw; it is absent exactly when none of the 99 usable draws is acceptable |
| GameRules.PlayerBodies | src/hooks/useGame.ts:187 | a cell is in the flattened bodies exactly when some player's body holds it |
| GameRules.PlayerBodiesOfTwo | src/hooks/useGame.ts:187 | for two players the flattening is player 1's body followed by player 2's |
| GameRules.IndexOf | src/hooks/useGame.ts:456 | findIndex returns -1 exactly when the cell is absent, and otherwise the first index holding it |
| GameRules.RemoveAt | src/hooks/useGame.ts:464 | filtering out one index removes exactly one occurrence of that element (multiset difference) and keeps a duplicate-free list duplicate-free without it |
| Handlers.FreshSingle | src/hooks/useGame.ts:284-305 | a new single-player state satisfies the invariant and leaves room on the grid |
| Handlers.FreshMulti | src/hooks/useGame.ts:307-345 | a new two-player state satisfies the invariant and leaves room on the grid |
| Handlers.InitialGameState | src/hooks/useGame.ts:20-41 | the hook starts in the menu with the fresh single-player state whose food is the first draw off the centre cell |
| Handlers.StartSinglePlayer | src/hooks/useGame.ts:284-305 | the fresh playing single-player state, its one food on the grid and off the snake |
| Handlers.StartMultiPlayer | src/hooks/useGame.ts:307-345 | the fresh two-player state, its one food on the grid and off both snakes |
| Handlers.ResetGame | src/hooks/useGame.ts:49-113 | a fresh playing game of the same mode; nothing else of the previous state survives |
| Handlers.PauseGame | src/hooks/useGame.ts:270-275 | only the status changes; it becomes paused exactly when it was not paused and playing exactly when it was paused |
| Handlers.PauseTwiceRestores | src/hooks/useGame.ts:270-275 | pausing twice restores a playing or paused game |
| Handlers.PauseTwiceResumes | src/hooks/useGame.ts:270-275 | pausing twice from the menu or game-over leaves a playing game |
| Handlers.GoToMenu | src/hooks/useGame.ts:277-282 | only the status changes, to menu |
| Handlers.ChangeDirection | src/hooks/useGame.ts:347-368 | a no-op unless a single-player game is playing, and a no-op for the reverse direction; otherwise only the snake's direction changes, to the requested one; the result is never the reverse of the old direction |
| Handlers.SteerPlayer | src/hooks/useGame.ts:374-386 | only the direction may change; the named living player takes the requested direction unless it reverses the current one, every other player is returned as it was, and no player is ever turned back onto itself |
| Handlers.ChangePlayerDirection | src/hooks/useGame.ts:370-393 | a no-op unless a two-player game is playing; another player, a dead player and a reverse request are left alone; otherwise only the named player's direction changes, to the requested one |
| Handlers.ActivatePowerUp | src/hooks/useGame.ts:116-121 | the chosen kind becomes active with a 20000 ms timer; nothing else changes |
| Handlers.ExpirePowerUp | src/hooks/useGame.ts:128-133 | the timeout clears the active power-up and its timer; nothing else changes |
| Handlers.ActivationReplaces | src/hooks/useGame.ts:116-134 | a second activation wins outright (no stacking) and expiry forgets any activation |
| SingleTick.WrapOneStep | src/hooks/useGame.ts:431-437 | phase-through wraps a one-step move from the grid back onto it: x = -1 becomes 19, x = 20 becomes 0, likewise for y, and an in-grid step is untouched |
| SingleTick.Wrap | src/hooks/useGame.ts:431-437 | at most one coordinate is replaced: with y on the grid, x = -1 (or below) becomes 19 and x = 20 (or above) becomes 0; with y off the grid, y is wrapped and x is left as it was, because the later test overrides the earlier one |
| SingleTick.SurvivalRule | src/hooks/useGame.ts:427-445 | from an in-grid head, invincible or phase-through always survive; otherwise the tick survives exactly when the next cell is in the grid and free of obstacles |
| SingleTick.GenerateSpecialFood | src/hooks/useGame.ts:395-401 | a special food appears exactly with the roll, on the first free draw |
| SingleTick.GeneratePowerUp | src/hooks/useGame.ts:403-412 | one power-up exactly with the roll, on the grid, x from one placement and y from another |
| SingleTick.PowerUpCellMayBeTaken | src/hooks/useGame.ts:406-409 | two free placements can combine into an excluded cell, so the power-up cell need not be free |
| SingleTick.EatPlainFood | src/hooks/useGame.ts:457-480 | the eaten food is removed once and the others keep their order; a spawned special food lies on a cell off the grown body, obstacles, power-ups and remaining foods; power-ups spawn only when none is on the grid |
| SingleTick.EatFood | src/hooks/useGame.ts:455-489 | the score gains 10 × level for a plain food under the head and 50 × level for the special food under it, doubled under double-score; the eaten food leaves the list once, the others keeping their order; eating the special food clears it, and a special food spawns only after a plain food when none was on the grid |
| SingleTick.EatPowerUp | src/hooks/useGame.ts:491-500 | a power-up under the head leaves the grid and selects the drawn kind; without one, the power-ups and activation are untouched |
| SingleTick.Consume | src/hooks/useGame.ts:453-500 | something is eaten exactly when the head lands on a plain food, the special food or a power-up; points, remaining foods, special food and power-ups are as the food and power-up parts state, with at most one power-up left |
| SingleTick.Eat | src/hooks/useGame.ts:447-505 | the body grows exactly when food, special food or a power-up is eaten, and otherwise keeps its length; the score adds 10 × level per food and 50 × level per special food, doubled under double-score; an eaten power-up selects the drawn kind |
| SingleTick.SettleLevel | src/hooks/useGame.ts:507-537 | the level rises by one exactly when the score reaches level × 100; a level-up replaces the obstacles by the first usable draw (one of the first 99) that is far from the new head and off every listed cell, and by none exactly when no usable draw qualifies, and recomputes the speed; otherwise obstacles and speed stay |
| SingleTick.MoveSingle | src/hooks/useGame.ts:414-539 | the tick produces the `SingleOutcome`: a fatal move only sets game-over; a surviving tick is `SurvivedTick`, which puts the new head in front of the old body and trims the tail exactly when nothing was eaten, removes the eaten food keeping the others in order, scores it, spawns or clears the special food, takes an eaten power-up and activates the drawn kind for 20000 ms, levels up exactly when the score reaches level × 100 (then replacing the obstacles by the first qualifying usable draw, or by none exactly when none qualifies, and recomputing the speed); the invariant is kept |
| SingleTick.AdvanceSingle | src/hooks/useGame.ts:447-539 | a tick whose move survives ends in `SurvivedTick`: grown or trimmed body, foods, special food, power-ups, score, level, obstacles and the activation exactly as above; the invariant is kept |
| MultiTick.EatPlainFood | src/hooks/useGame.ts:178-193 | the eaten food is removed once; with the roll and no special food in play, the special food goes to the first draw off every pre-tick body, obstacle, power-up and remaining food |
| MultiTick.Collides | src/hooks/useGame.ts:151-170 | a two-player move is fatal exactly when the single-player move check without phase-through fails or the head lands on the other living player's pre-tick body; the player's own body never counts |
| MultiTick.EatFoods | src/hooks/useGame.ts:177-202 | a plain food under the head scores 10 × level and leaves the list once; the special food under the head, including one the plain food just spawned there, scores 50 × level and is cleared; a special food on the grid other than the head's stays; with the roll after a plain food and none on the grid, the special food is the first free draw (`SpawnedFirstFree`), cleared at once when that draw is the head; no doubling; the power-ups are untouched |
| MultiTick.TakePowerUp | src/hooks/useGame.ts:204-211 | a power-up under the head leaves the grid and the drawn kind is activated; otherwise the power-ups stay and nothing is activated |
| MultiTick.Consume | src/hooks/useGame.ts:177-211 | the pools end as `Consumed` states: whatever lies on the new head is consumed, one occurrence of its food removed, a power-up taken and any other kept, the special food eaten (cleared when it was under the head), kept, or spawned at the first free draw off every pre-tick body, obstacle, power-up and remaining food (`SpawnedFirstFree`); something is eaten exactly when food, special food or a power-up was there; points are 10 × level and 50 × level, never doubled; a special food spawned under the head is eaten at once |
| MultiTick.MovePlayer | src/hooks/useGame.ts:145-228 | the step is `Stepped`: a dead player is unchanged; a living one dies, eating nothing, exactly when it collides; a survivor's body is the new head followed by the old body with the last segment dropped exactly when nothing was eaten, its score and level are updated, and the pools end as `Consumed` states (the eaten special food cleared, a spawned one at the first free draw); a power-up is activated exactly when a survivor lands on one |
| MultiTick.Advance | src/hooks/useGame.ts:172-228 | a survivor moving onto a cell: body `[h] + body`, trimmed by the last segment exactly when nothing was eaten; score plus 10 × level per plain food and 50 × level per special food; level up once the score reaches level × 100; the pools shrink, keep their invariant and end as `Consumed` states, including the special food's exact fate |
| MultiTick.Activation | src/hooks/useGame.ts:205-210 | a player's step activates a power-up exactly when it survives and its head lands on one |
| MultiTick.AbsorbSpec | src/hooks/useGame.ts:237-241 | appending body cells as food keeps the old foods as a prefix, adds exactly the cells, and never adds a cell twice |
| MultiTick.Absorb | src/hooks/useGame.ts:237-241 | absorbing cells into the foods never shrinks the list and adds at most one food per cell |
| MultiTick.AddCellsAsFood | src/hooks/useGame.ts:237-241 | the push loop computes Absorb |
| MultiTick.MoveBoth | src/hooks/useGame.ts:145-229 | player 1 steps (`Stepped`) on the pre-tick pools and player 2 on the pools player 1 left, both judged against the pre-tick snakes; each activation is as `Activation` says; on a shared target cell player 2 gains nothing and does not grow |
| MultiTick.BuryFallen | src/hooks/useGame.ts:232-243 | the foods become the remaining foods with player 1's and then player 2's pre-tick body absorbed when that player died this tick; a cell is food exactly when it was food or lies in such a body, and no cell is listed twice |
| MultiTick.MoveMulti | src/hooks/useGame.ts:137-268 | the tick produces the `MultiOutcome`: both players step in order, fallen bodies are absorbed into the foods, the last activation in call order is the active power-up, and the game is over with the best score exactly when nobody is alive; dead players stay dead and unchanged, death happens exactly on collision, a shared target cell leaves player 2 unchanged in score and length; the invariant is kept |
| MultiTick.BothSurviveFoods | src/hooks/useGame.ts:177-181 | when both players survive a tick, exactly the plain food under each new head is removed (once) and no food is added |
| Timers.RefreshFood | src/hooks/useGame.ts:564-588 | exactly one food is appended, on the first draw off every occupied cell; nothing else changes |
| Timers.RefreshFoodUsesOneCell | src/hooks/useGame.ts:586 | each refresh occupies exactly one more cell |
| Timers.FindAlive | src/hooks/useGame.ts:617 | find returns the first living player, and nothing exactly when every player is dead |
| Timers.CloneAnchor | src/hooks/useGame.ts:609-622 | the clone keeps its distance from the single snake's head, from player 1's head when alive, else player 2's, and from (10, 10) when both are dead |
| Timers.CloneObstacle | src/hooks/useGame.ts:608-639 | the timer produces the `CloneOutcome`: the old obstacles stay as a prefix and at most one obstacle is appended, stamped now, at distance 7 or more from the anchor, on an unoccupied cell; nothing is appended exactly when no usable draw qualifies; nothing else changes |
| Timers.KeepYoung | src/hooks/useGame.ts:664-668 | the filter keeps only obstacles of the list |
| Timers.KeepYoungKeeps | src/hooks/useGame.ts:664-668 | an obstacle is kept exactly when its age is below its own lifetime |
| Timers.CleanupObstacles | src/hooks/useGame.ts:662-673 | only the obstacle list changes, to the filtered one |
| Timers.CleanupWindow | src/hooks/useGame.ts:666 | with lifetimes between 4 and 9 seconds, obstacles younger than 4 s survive a cleanup and none 9 s old or more remains |
| UseGame.MoveSnake | src/hooks/useGame.ts:414-420 | a tick changes nothing unless a game is playing; a playing single-player tick produces the `SingleOutcome` and a playing two-player tick the `MultiOutcome`; the mode and the invariant are kept |
| UseGame.Game.constructor | src/hooks/useGame.ts:20-41 | the hook's state cell starts with the menu state |
| UseGame.Game.Reset | src/hooks/useGame.ts:49-113 | the cell holds a fresh playing game of the same mode |
| UseGame.Game.StartSingle | src/hooks/useGame.ts:284-305 | the cell holds the fresh single-player game |
| UseGame.Game.StartMulti | src/hooks/useGame.ts:307-345 | the cell holds the fresh two-player game |
| UseGame.Game.Pause | src/hooks/useGame.ts:270-275 | only the status toggles between paused and playing (any other status becomes paused) |
| UseGame.Game.ToMenu | src/hooks/useGame.ts:277-282 | only the status changes, to menu |
| UseGame.Game.Steer | src/hooks/useGame.ts:347-368 | the cell is steered as changeDirection says; the snake never reverses |
| UseGame.Game.SteerPlayer | src/hooks/useGame.ts:370-393 | the cell is steered as changePlayerDirection says |
| UseGame.Game.Activate | src/hooks/useGame.ts:116-121 | the chosen power-up becomes active for 20000 ms |
| UseGame.Game.Expire | src/hooks/useGame.ts:128-133 | the active power-up is cleared |
| UseGame.Game.Tick | src/hooks/useGame.ts:414-539 | the cell holds the `SingleOutcome` or `MultiOutcome` of its old state when a game is playing, and is unchanged otherwise; the invariant and the mode are kept |
| UseGame.Game.FoodTimer | src/hooks/useGame.ts:564-588 | one food is appended on the first free draw |
| UseGame.Game.ObstacleTimer | src/hooks/useGame.ts:608-639 | the cell holds the `CloneOutcome` of its old state: old obstacles kept as a prefix, at most one far, unoccupied obstacle stamped now appended, nothing else changed |
| UseGame.Game.CleanupTimer | src/hooks/useGame.ts:662-673 | the obstacles are filtered by age against this poll's lifetimes |

## Left out

- Timer and React wiring is not modelled. This covers `useState`, `useEffect`, `useRef`, and the arming, re-arming and teardown of `setInterval`/`setTimeout`. Each timer callback's state transform is modelled as a method the class can call at any point. The order in which timers fire is not modelled.
- The game loop re-arms its interval with `calculateSpeed(level, slow-motion active)` and never reads `state.speed`. Since scheduling is out of the model, `speed` is kept only as a state field.
- The keyboard listeners are UI plumbing. They reach the model only through the steering, pause and menu handlers.
- `activatePowerUp` called from inside a tick's updater queues a second state update. The model applies it as a field update right after the tick's result, in call order. At a level-up, the speed is therefore computed from the power-up that was active before the tick.
- The expiry timeout armed by `activatePowerUp` is the separate operation `ExpirePowerUp`. The cancellation of an earlier pending timeout is not modelled. `powerUpTimer` never counts down in the source either.
- The obstacle cleanup draws `4000 + Math.random() * 5000` for each obstacle on each poll. The model takes one integer lifetime per obstacle. For a whole-millisecond age, an integer lifetime between 4000 and 9000 decides exactly like the real-valued draw.
- Timers.CloneObstacle: the `.slice(0, 1)` is kept, although the placer never returns more than one obstacle.
- SingleTick.GeneratePowerUp: makes no claim that the power-up cell is free. The source combines x and y from two separate placements, and `PowerUpCellMayBeTaken` shows such a cell can be occupied.
- The samplers' callers in the ticks and timers require a fair run of draws and room on the grid. This is a sufficient condition for the resampling loop to end, not a necessary one. The source loops forever only when no draw is ever free.
  - The food timer adds a food every second, so `HasRoom` eventually fails in a long game. `RefreshFoodUsesOneCell` states the growth.
  - The model proves termination only while room remains.
- MultiTick.MoveMulti: requires the two-player invariant (exactly player 1 then player 2). The source's `Math.max` over an empty list, and its `find` over a player list without the other player, are therefore not modelled.
- `getPowerUpDescription` and `getPowerUpColor` are not modelled, being display strings only. Rendering, the translation table, local-storage high scores and the firework particles are not part of this model.
- Numbers are unbounded integers. The source's floating-point `number` never leaves the integer range in these formulas for reachable levels and scores.

## Findings

| source | as written | input that shows it | evidently intended | confidence | as-written member | corrected member |
|---|---|---|---|---|---|---|
| src/hooks/useGame.ts:440 | `isValidMove(finalNewHead, snake, obstacles, hasPhaseThrough)` passes four arguments to the three-parameter `isValidMove(newHead, obstacles, hasPhaseThrough)`. The snake object lands in `obstacles` and the obstacle array in `hasPhaseThrough`. An array is truthy, so every in-grid head is accepted and obstacles never end a single-player game | head (5, 5) moving onto an obstacle at (5, 5), no power-up active | the three-argument check: bounds, then obstacles unless phase-through | not executed | GameUtils.IsValidMoveAsCalled, GameUtils.AsCalledIgnoresObstacles | GameUtils.IsValidMove |
