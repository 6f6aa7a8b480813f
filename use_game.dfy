/** The game hook: one mutable GameState cell that every handler, tick and timer replaces. */
module UseGame {
  import opened Types
  import opened GameUtils
  import opened GameRules
  import opened Handlers
  import opened SingleTick
  import opened MultiTick
  import opened Timers

  /** moveSnake: a tick only moves snakes while a game is playing, and dispatches on the
      mode. */
  method MoveSnake(prev: GameState, d: TickDraws) returns (next: GameState)
    requires ValidState(prev) && TickDrawsOk(d) && HasRoom(prev)
    ensures prev.gameStatus != Playing ==> next == prev
    ensures ValidState(next) && next.gameMode == prev.gameMode
    ensures next.gameStatus == Playing || next.gameStatus == prev.gameStatus || next.gameStatus == GameOver
    ensures prev.gameStatus == Playing && prev.gameMode == Single ==> SingleOutcome(prev, d, next)
    ensures prev.gameStatus == Playing && prev.gameMode == Multi ==> MultiOutcome(prev, d, next)
  {
    if prev.gameStatus != Playing {
      return prev;
    }
    if prev.gameMode == Multi {
      next := MoveMulti(prev, d);
      return;
    }
    next := MoveSingle(prev, d);
  }

  /** The hook's state cell. */
  class Game {
    var state: GameState

    predicate Valid()
      reads this
    {
      ValidState(state)
    }

    /** The hook starts in the menu, in single-player mode, with one food off the snake. */
    constructor (draws: seq<Position>)
      requires AllInGrid(draws) && HasFreeDraw([SINGLE_START], draws)
      ensures Valid() && state == FreshSingle(FirstFree([SINGLE_START], draws), Menu)
    {
      var initial := InitialGameState(draws);
      state := initial;
    }

    method Reset(draws: seq<Position>)
      requires Valid() && AllInGrid(draws)
      requires state.gameMode == Multi ==> HasFreeDraw([PLAYER1_START, PLAYER2_START], draws)
      requires state.gameMode == Single ==> HasFreeDraw([SINGLE_START], draws)
      modifies this
      ensures Valid() && state.gameMode == old(state.gameMode) && state.gameStatus == Playing
      ensures old(state.gameMode) == Multi ==> state == FreshMulti(FirstFree([PLAYER1_START, PLAYER2_START], draws))
      ensures old(state.gameMode) == Single ==> state == FreshSingle(FirstFree([SINGLE_START], draws), Playing)
    {
      state := ResetGame(state, draws);
    }

    method StartSingle(draws: seq<Position>)
      requires AllInGrid(draws) && HasFreeDraw([SINGLE_START], draws)
      modifies this
      ensures Valid() && state == FreshSingle(FirstFree([SINGLE_START], draws), Playing)
    {
      state := StartSinglePlayer(draws);
    }

    method StartMulti(draws: seq<Position>)
      requires AllInGrid(draws) && HasFreeDraw([PLAYER1_START, PLAYER2_START], draws)
      modifies this
      ensures Valid() && state == FreshMulti(FirstFree([PLAYER1_START, PLAYER2_START], draws))
    {
      state := StartMultiPlayer(draws);
    }

    method Pause()
      requires Valid()
      modifies this
      ensures Valid() && state == old(state).(gameStatus := state.gameStatus)
      ensures state.gameStatus == (if old(state.gameStatus) == Paused then Playing else Paused)
    {
      state := PauseGame(state);
    }

    method ToMenu()
      requires Valid()
      modifies this
      ensures Valid() && state == old(state).(gameStatus := Menu)
    {
      state := GoToMenu(state);
    }

    method Steer(newDirection: Direction)
      requires Valid()
      modifies this
      ensures Valid() && state == ChangeDirection(old(state), newDirection)
      ensures state.snake.direction != GetOppositeDirection(old(state.snake.direction))
    {
      state := ChangeDirection(state, newDirection);
    }

    method SteerPlayer(playerId: PlayerId, newDirection: Direction)
      requires Valid()
      modifies this
      ensures Valid() && state == ChangePlayerDirection(old(state), playerId, newDirection)
    {
      state := ChangePlayerDirection(state, playerId, newDirection);
    }

    /** activatePowerUp and, twenty seconds later, the expiry its timeout applies. */
    method Activate(powerUp: PowerUpType)
      requires Valid()
      modifies this
      ensures Valid() && state == old(state).(powerUpActive := Some(powerUp), powerUpTimer := POWER_UP_DURATION)
    {
      state := ActivatePowerUp(state, powerUp);
    }

    method Expire()
      requires Valid()
      modifies this
      ensures Valid() && state == old(state).(powerUpActive := None, powerUpTimer := 0)
    {
      state := ExpirePowerUp(state);
    }

    /** One game-loop tick. */
    method Tick(d: TickDraws)
      requires Valid() && TickDrawsOk(d) && HasRoom(state)
      modifies this
      ensures Valid() && state.gameMode == old(state.gameMode)
      ensures old(state.gameStatus) != Playing ==> state == old(state)
      ensures old(state.gameStatus) == Playing && old(state.gameMode) == Single ==> SingleOutcome(old(state), d, state)
      ensures old(state.gameStatus) == Playing && old(state.gameMode) == Multi ==> MultiOutcome(old(state), d, state)
    {
      state := MoveSnake(state, d);
    }

    /** One firing of the food timer. */
    method FoodTimer(draws: seq<Position>)
      requires Valid() && AllInGrid(draws) && HasFreeDraw(Occupied(state), draws)
      modifies this
      ensures Valid() && state == old(state).(foods := old(state.foods) + [FirstFree(Occupied(old(state)), draws)])
    {
      state := RefreshFood(state, draws);
    }

    /** One firing of the obstacle-clone timer. */
    method ObstacleTimer(draws: seq<Position>, now: int)
      requires Valid() && |draws| >= MAX_ATTEMPTS && AllInGrid(draws)
      modifies this
      ensures Valid() && CloneOutcome(old(state), draws, now, state)
    {
      state := CloneObstacle(state, draws, now);
    }

    /** One firing of the cleanup timer, with this poll's lifetime draw for each obstacle. */
    method CleanupTimer(now: int, lifetimes: seq<int>)
      requires Valid() && |lifetimes| == |state.obstacles|
      modifies this
      ensures Valid() && state == CleanupObstacles(old(state), now, lifetimes)
    {
      state := CleanupObstacles(state, now, lifetimes);
    }
  }
}
