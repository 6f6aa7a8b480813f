/** The value types of the game: positions, directions, snakes, obstacles and the
    single aggregate GameState record that every handler replaces. */
module Types {

  datatype Option<T> = None | Some(value: T)

  /** A grid cell; coordinates are plain integers, a head may leave the grid. */
  datatype Position = Position(x: int, y: int)

  datatype Direction = Up | Down | Left | Right

  datatype GameMode = Single | Multi

  datatype PlayerId = Player1 | Player2

  datatype Color = Green | Pink

  datatype PowerUpType = SlowMotion | Invincible | DoubleScore | PhaseThrough

  datatype Status = Playing | Paused | GameOver | Menu

  /** Head at index 0. */
  datatype Snake = Snake(body: seq<Position>, direction: Direction)

  datatype PlayerSnake = PlayerSnake(
    id: PlayerId,
    body: seq<Position>,
    direction: Direction,
    score: int,
    level: int,
    isAlive: bool,
    color: Color)

  /** createdAt is a wall-clock reading in milliseconds. */
  datatype Obstacle = Obstacle(position: Position, createdAt: int)

  datatype GameState = GameState(
    gameMode: GameMode,
    // single-player fields
    snake: Snake,
    score: int,
    level: int,
    // two-player fields
    players: seq<PlayerSnake>,
    // shared fields
    foods: seq<Position>,
    specialFood: Option<Position>,
    powerUps: seq<Position>,
    obstacles: seq<Obstacle>,
    gameStatus: Status,
    speed: int,
    powerUpActive: Option<PowerUpType>,
    powerUpTimer: int)
}
