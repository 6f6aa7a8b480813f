/** The input and control handlers of the game hook: starting and resetting a game,
    pausing, returning to the menu, steering, and the power-up activation and expiry
    updates. Each is a step from the previous GameState to the next one. */
module Handlers {
  import opened Types
  import opened GameUtils
  import opened GameRules

  const SINGLE_START := Position(10, 10)
  const PLAYER1_START := Position(8, 10)
  const PLAYER2_START := Position(12, 10)

  /** A new single-player game: one-cell snake at the centre heading right, score 0,
      level 1, one food, nothing else on the grid. */
  function FreshSingle(food: Position, status: Status): (s: GameState)
    ensures ValidState(s) && HasRoom(s)
  {
    GameState(
      gameMode := Single,
      snake := Snake([SINGLE_START], Right),
      score := 0,
      level := 1,
      players := [],
      foods := [food],
      specialFood := None,
      powerUps := [],
      obstacles := [],
      gameStatus := status,
      speed := INITIAL_SPEED,
      powerUpActive := None,
      powerUpTimer := 0)
  }

  /** A new two-player game: player 1 at (8, 10) heading right, player 2 at (12, 10)
      heading left, both alive with score 0 and level 1; the single-player snake is empty. */
  function FreshMulti(food: Position): (s: GameState)
    ensures ValidState(s) && HasRoom(s)
  {
    var players := [PlayerSnake(Player1, [PLAYER1_START], Right, 0, 1, true, Green),
                    PlayerSnake(Player2, [PLAYER2_START], Left, 0, 1, true, Pink)];
    PlayerBodiesOfTwo(players);
    GameState(
      gameMode := Multi,
      snake := Snake([], Right),
      score := 0,
      level := 1,
      players := players,
      foods := [food],
      specialFood := None,
      powerUps := [],
      obstacles := [],
      gameStatus := Playing,
      speed := INITIAL_SPEED,
      powerUpActive := None,
      powerUpTimer := 0)
  }

  /** The state the hook starts with: a single-player game waiting in the menu, its one food
      on a free cell. */
  method InitialGameState(draws: seq<Position>) returns (s: GameState)
    requires AllInGrid(draws) && HasFreeDraw([SINGLE_START], draws)
    ensures s == FreshSingle(FirstFree([SINGLE_START], draws), Menu)
    ensures InGrid(s.foods[0]) && s.foods[0] != SINGLE_START
  {
    var food := GetRandomPosition([SINGLE_START], draws);
    s := FreshSingle(food, Menu);
  }

  method StartSinglePlayer(draws: seq<Position>) returns (s: GameState)
    requires AllInGrid(draws) && HasFreeDraw([SINGLE_START], draws)
    ensures s == FreshSingle(FirstFree([SINGLE_START], draws), Playing)
    ensures InGrid(s.foods[0]) && s.foods[0] != SINGLE_START
  {
    var food := GetRandomPosition([SINGLE_START], draws);
    s := FreshSingle(food, Playing);
  }

  method StartMultiPlayer(draws: seq<Position>) returns (s: GameState)
    requires AllInGrid(draws) && HasFreeDraw([PLAYER1_START, PLAYER2_START], draws)
    ensures s == FreshMulti(FirstFree([PLAYER1_START, PLAYER2_START], draws))
    ensures InGrid(s.foods[0]) && s.foods[0] != PLAYER1_START && s.foods[0] != PLAYER2_START
  {
    var food := GetRandomPosition([PLAYER1_START, PLAYER2_START], draws);
    s := FreshMulti(food);
  }

  /** resetGame: a fresh playing game of the previous mode; nothing of the previous state
      other than its mode survives. */
  method ResetGame(prev: GameState, draws: seq<Position>) returns (s: GameState)
    requires AllInGrid(draws)
    requires prev.gameMode == Multi ==> HasFreeDraw([PLAYER1_START, PLAYER2_START], draws)
    requires prev.gameMode == Single ==> HasFreeDraw([SINGLE_START], draws)
    ensures s.gameMode == prev.gameMode && s.gameStatus == Playing
    ensures prev.gameMode == Multi ==> s == FreshMulti(FirstFree([PLAYER1_START, PLAYER2_START], draws))
    ensures prev.gameMode == Single ==> s == FreshSingle(FirstFree([SINGLE_START], draws), Playing)
  {
    if prev.gameMode == Multi {
      s := StartMultiPlayer(draws);
    } else {
      s := StartSinglePlayer(draws);
    }
  }

  /** pauseGame toggles between paused and playing; any status other than paused, even
      game-over or menu, becomes paused. */
  function PauseGame(prev: GameState): (s: GameState)
    ensures s == prev.(gameStatus := s.gameStatus)
    ensures s.gameStatus == Paused <==> prev.gameStatus != Paused
    ensures s.gameStatus == Playing <==> prev.gameStatus == Paused
    ensures ValidState(prev) ==> ValidState(s)
  {
    prev.(gameStatus := if prev.gameStatus == Paused then Playing else Paused)
  }

  /** Pausing twice returns a running or paused game to where it was. */
  lemma PauseTwiceRestores(s: GameState)
    requires s.gameStatus == Playing || s.gameStatus == Paused
    ensures PauseGame(PauseGame(s)) == s
  {
  }

  /** Pausing twice from the menu or from game-over leaves a game that is playing. */
  lemma PauseTwiceResumes(s: GameState)
    requires s.gameStatus == Menu || s.gameStatus == GameOver
    ensures PauseGame(PauseGame(s)) == s.(gameStatus := Playing)
  {
  }

  function GoToMenu(prev: GameState): (s: GameState)
    ensures s == prev.(gameStatus := Menu)
    ensures ValidState(prev) ==> ValidState(s)
  {
    prev.(gameStatus := Menu)
  }

  /** changeDirection: steering of the single-player snake. It is a no-op unless a
      single-player game is playing, and a request for the reverse of the current direction
      is ignored; otherwise only the snake's direction changes. */
  function ChangeDirection(prev: GameState, newDirection: Direction): (s: GameState)
    ensures prev.gameStatus != Playing || prev.gameMode != Single ==> s == prev
    ensures GetOppositeDirection(newDirection) == prev.snake.direction ==> s == prev
    ensures s == prev.(snake := prev.snake.(direction := s.snake.direction))
    ensures (prev.gameStatus == Playing && prev.gameMode == Single
             && GetOppositeDirection(newDirection) != prev.snake.direction) ==> s.snake.direction == newDirection
    ensures s.snake.direction != GetOppositeDirection(prev.snake.direction)
    ensures ValidState(prev) ==> ValidState(s)
  {
    if prev.gameStatus != Playing then prev
    else if prev.gameMode == Single then
      if GetOppositeDirection(newDirection) == prev.snake.direction then prev
      else prev.(snake := prev.snake.(direction := newDirection))
    else prev
  }

  /** The per-player update of changePlayerDirection. */
  function SteerPlayer(player: PlayerSnake, playerId: PlayerId, newDirection: Direction): (r: PlayerSnake)
    ensures r == player.(direction := r.direction)
    ensures player.id == playerId && player.isAlive && newDirection != GetOppositeDirection(player.direction) ==>
              r.direction == newDirection
    ensures !(player.id == playerId && player.isAlive && newDirection != GetOppositeDirection(player.direction)) ==>
              r == player
    // a player is never turned back onto itself
    ensures r.direction != GetOppositeDirection(player.direction)
  {
    if player.id == playerId && player.isAlive then
      if GetOppositeDirection(newDirection) == player.direction then player
      else player.(direction := newDirection)
    else player
  }

  /** changePlayerDirection: steering in a two-player game. A no-op unless a two-player game
      is playing; a dead player, the other player, and a reverse request are left alone;
      otherwise only the named player's direction changes. */
  function ChangePlayerDirection(prev: GameState, playerId: PlayerId, newDirection: Direction): (s: GameState)
    ensures prev.gameStatus != Playing || prev.gameMode != Multi ==> s == prev
    ensures s == prev.(players := s.players) && |s.players| == |prev.players|
    ensures forall i :: 0 <= i < |prev.players| ==>
              s.players[i] == prev.players[i].(direction := s.players[i].direction)
    ensures forall i :: 0 <= i < |prev.players| ==>
              (prev.players[i].id != playerId || !prev.players[i].isAlive
               || GetOppositeDirection(newDirection) == prev.players[i].direction)
              ==> s.players[i] == prev.players[i]
    ensures forall i :: 0 <= i < |prev.players| ==>
              (prev.gameStatus == Playing && prev.gameMode == Multi
               && prev.players[i].id == playerId && prev.players[i].isAlive
               && GetOppositeDirection(newDirection) != prev.players[i].direction)
              ==> s.players[i].direction == newDirection
    ensures ValidState(prev) ==> ValidState(s)
  {
    if prev.gameStatus != Playing || prev.gameMode != Multi then prev
    else
      prev.(players := seq(|prev.players|, i requires 0 <= i < |prev.players| =>
                             SteerPlayer(prev.players[i], playerId, newDirection)))
  }

  /** activatePowerUp: the chosen kind replaces any active one and its timer restarts at
      the full duration; no stacking. */
  function ActivatePowerUp(prev: GameState, powerUp: PowerUpType): (s: GameState)
    ensures s == prev.(powerUpActive := Some(powerUp), powerUpTimer := POWER_UP_DURATION)
    ensures ValidState(prev) ==> ValidState(s)
  {
    prev.(powerUpActive := Some(powerUp), powerUpTimer := POWER_UP_DURATION)
  }

  /** The expiry update the power-up timeout applies. */
  function ExpirePowerUp(prev: GameState): (s: GameState)
    ensures s == prev.(powerUpActive := None, powerUpTimer := 0)
    ensures ValidState(prev) ==> ValidState(s)
  {
    prev.(powerUpActive := None, powerUpTimer := 0)
  }

  /** A second activation wins outright; expiry forgets any activation. */
  lemma ActivationReplaces(s: GameState, first: PowerUpType, second: PowerUpType)
    ensures ActivatePowerUp(ActivatePowerUp(s, first), second) == ActivatePowerUp(s, second)
    ensures ExpirePowerUp(ActivatePowerUp(s, first)) == ExpirePowerUp(s)
  {
  }
}
