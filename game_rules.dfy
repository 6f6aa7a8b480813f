/** Shared vocabulary of the game-state handlers: the state invariant, the cells a state
    occupies, the list helpers the handlers use (findIndex, filter by index), and the random
    inputs one movement tick consumes. */
module GameRules {
  import opened Types
  import opened GameUtils

  /** The power-up kinds, in the order a uniform draw of an index below 4 picks them. */
  const POWER_UP_TYPES: seq<PowerUpType> := [SlowMotion, Invincible, DoubleScore, PhaseThrough]
  /** How long an activated power-up lasts, in milliseconds. */
  const POWER_UP_DURATION := 20000
  /** Minimum Manhattan distance between a snake head and a newly placed obstacle. */
  const OBSTACLE_MIN_DISTANCE := 7
  /** Points for a plain food and for the special food, before level and doubling. */
  const FOOD_POINTS := 10
  const SPECIAL_FOOD_POINTS := 50

  /** The random outcomes one snake's consumption may use: the 20% special-food roll, the
      draws of the special-food placement, and the power-up kind index. */
  datatype EatDraws = EatDraws(specialRoll: bool, specialCells: seq<Position>, powerUpIndex: nat)

  /** The random outcomes and the clock reading one movement tick may use. The single-player
      tick and player 1 use `eat1`, player 2 uses `eat2`; the power-up spawn (15% roll, then x
      from one placement and y from another) and the level-up obstacle are single-player only. */
  datatype TickDraws = TickDraws(
    eat1: EatDraws,
    eat2: EatDraws,
    powerUpRoll: bool,
    powerUpCellsX: seq<Position>,
    powerUpCellsY: seq<Position>,
    obstacleCells: seq<Position>,
    now: int)

  ghost predicate EatDrawsOk(d: EatDraws) {
    FairDraws(d.specialCells) && d.powerUpIndex < |POWER_UP_TYPES|
  }

  ghost predicate TickDrawsOk(d: TickDraws) {
    && EatDrawsOk(d.eat1)
    && EatDrawsOk(d.eat2)
    && FairDraws(d.powerUpCellsX)
    && FairDraws(d.powerUpCellsY)
    && |d.obstacleCells| >= MAX_ATTEMPTS
    && AllInGrid(d.obstacleCells)
  }

  /** The invariant every reachable state keeps. A single-player snake has a head; a
      two-player game has player 1 then player 2, each with a head; the plain foods hold no
      cell twice; at most one power-up lies on the grid. */
  predicate ValidState(s: GameState) {
    && (s.gameMode == Single ==> |s.snake.body| >= 1)
    && (s.gameMode == Multi ==>
          |s.players| == 2
          && s.players[0].id == Player1 && s.players[1].id == Player2
          && |s.players[0].body| >= 1 && |s.players[1].body| >= 1)
    && Distinct(s.foods)
    && |s.powerUps| <= 1
  }

  /** Every player's body cells, player by player. */
  function PlayerBodies(players: seq<PlayerSnake>): (r: seq<Position>)
    ensures forall p :: p in r <==> exists i :: 0 <= i < |players| && p in players[i].body
  {
    if players == [] then []
    else
      var rest := PlayerBodies(players[1..]);
      assert forall p :: p in rest <==> exists i :: 1 <= i < |players| && p in players[i].body by {
        forall p | p in rest ensures exists i :: 1 <= i < |players| && p in players[i].body {
          var i :| 0 <= i < |players[1..]| && p in players[1..][i].body;
          assert p in players[i + 1].body;
        }
        forall p, i | 1 <= i < |players| && p in players[i].body ensures p in rest {
          assert players[1..][i - 1] == players[i];
        }
      }
      players[0].body + rest
  }

  lemma PlayerBodiesOfTwo(players: seq<PlayerSnake>)
    requires |players| == 2
    ensures PlayerBodies(players) == players[0].body + players[1].body
  {
    var tail := players[1..];
    assert tail[1..] == [];
    assert PlayerBodies(tail[1..]) == [];
    assert PlayerBodies(tail) == tail[0].body + PlayerBodies(tail[1..]);
    assert tail[0] == players[1];
  }

  /** The snake cells of a state: the single snake, or every player's body. */
  function BodyCells(s: GameState): seq<Position> {
    if s.gameMode == Single then s.snake.body else PlayerBodies(s.players)
  }

  function SpecialCells(specialFood: Option<Position>): seq<Position> {
    if specialFood.Some? then [specialFood.value] else []
  }

  /** Every cell the state lists: snakes, obstacles, power-ups, foods and the special food. */
  function Occupied(s: GameState): seq<Position> {
    BodyCells(s) + ObstaclePositions(s.obstacles) + s.powerUps + s.foods + SpecialCells(s.specialFood)
  }

  /** The sampling handlers terminate only while the grid has room: the source loops forever
      once every cell it excludes covers the grid. */
  predicate HasRoom(s: GameState) {
    |Occupied(s)| + 1 < GRID_CELLS
  }

  /** The first index of `s` holding `p`, or -1 when `p` is absent. */
  function IndexOf(s: seq<Position>, p: Position): (i: int)
    ensures -1 <= i < |s|
    ensures i == -1 <==> p !in s
    ensures 0 <= i ==> s[i] == p && p !in s[..i]
  {
    if |s| == 0 then -1
    else if s[0] == p then 0
    else
      var j := IndexOf(s[1..], p);
      if j == -1 then -1
      else
        assert s[..j + 1] == [s[0]] + s[1..][..j];
        j + 1
  }

  /** `s` without its element at index `i`. */
  function RemoveAt(s: seq<Position>, i: int): (r: seq<Position>)
    requires 0 <= i < |s|
    ensures |r| == |s| - 1
    ensures multiset(r) == multiset(s) - multiset{s[i]}
    ensures Distinct(s) ==> Distinct(r) && s[i] !in r
  {
    assert s == s[..i] + [s[i]] + s[i + 1..];
    var r := s[..i] + s[i + 1..];
    r
  }
}
