/** Geometry, sampling, scoring and speed helpers of the game.

    Randomness is an input here: the random cells a sampling call draws are a sequence of
    in-grid positions, one sequence per call, and `now` is the clock reading in
    milliseconds. */
module GameUtils {
  import opened Types

  const GRID_SIZE := 20
  const INITIAL_SPEED := 150
  const SPEED_INCREMENT := 10
  const MIN_SPEED := 50
  /** Number of cells on the grid. */
  const GRID_CELLS := GRID_SIZE * GRID_SIZE
  /** Sampling budget of the obstacle placer. */
  const MAX_ATTEMPTS := 100

  predicate InGrid(p: Position) {
    0 <= p.x < GRID_SIZE && 0 <= p.y < GRID_SIZE
  }

  /** Every draw of a run lies on the grid, each coordinate a whole number below the grid size. */
  predicate AllInGrid(draws: seq<Position>) {
    forall i :: 0 <= i < |draws| ==> InGrid(draws[i])
  }

  /** A fair run of draws: on the grid, and every grid cell is drawn at some point. */
  ghost predicate FairDraws(draws: seq<Position>) {
    AllInGrid(draws) && forall c :: InGrid(c) ==> c in draws
  }

  predicate Distinct<T(==)>(s: seq<T>) {
    forall i, j :: 0 <= i < j < |s| ==> s[i] != s[j]
  }

  function Abs(n: int): nat {
    if n < 0 then -n else n
  }

  function Min(a: int, b: int): int {
    if a <= b then a else b
  }

  function Max(a: int, b: int): int {
    if a >= b then a else b
  }

  // ---------------------------------------------------------------------------
  // Random free cell

  /** Some draw of the run is not excluded: the resampling loop over this run terminates. */
  predicate HasFreeDraw(exclude: seq<Position>, draws: seq<Position>) {
    exists k :: 0 <= k < |draws| && draws[k] !in exclude
  }

  /** Index of the first draw, at or after `i`, that is not excluded. */
  function FirstFreeFrom(exclude: seq<Position>, draws: seq<Position>, i: nat): (k: nat)
    requires i <= |draws|
    requires exists k :: i <= k < |draws| && draws[k] !in exclude
    ensures i <= k < |draws| && draws[k] !in exclude
    ensures forall j :: i <= j < k ==> draws[j] in exclude
    decreases |draws| - i
  {
    if draws[i] !in exclude then i else FirstFreeFrom(exclude, draws, i + 1)
  }

  /** The cell the resampling loop settles on: the first draw that is not excluded. */
  function FirstFree(exclude: seq<Position>, draws: seq<Position>): Position
    requires HasFreeDraw(exclude, draws)
  {
    draws[FirstFreeFrom(exclude, draws, 0)]
  }

  /** getRandomPosition: draw cells until one is not excluded. The source loops forever when
      no draw is free; the precondition is exactly that the loop terminates. */
  method GetRandomPosition(excludePositions: seq<Position>, draws: seq<Position>) returns (position: Position)
    requires AllInGrid(draws)
    requires HasFreeDraw(excludePositions, draws)
    ensures InGrid(position) && position !in excludePositions
    ensures position == FirstFree(excludePositions, draws)
  {
    ghost var first := FirstFreeFrom(excludePositions, draws, 0);
    var i := 0;
    position := draws[i];
    while position in excludePositions
      invariant 0 <= i <= first
      invariant position == draws[i]
      decreases first - i
    {
      i := i + 1;
      position := draws[i];
    }
  }

  /** Pigeonhole: the grid has GRID_CELLS distinct cells, listed here by row. */
  function CellAt(i: int): Position
    requires 0 <= i < GRID_CELLS
  {
    Position(i % GRID_SIZE, i / GRID_SIZE)
  }

  /** A duplicate-free list whose elements all occur in `ys` is no longer than `ys`. */
  lemma {:induction false} DistinctCoveredIsShorter(xs: seq<Position>, ys: seq<Position>)
    requires Distinct(xs)
    requires forall p :: p in xs ==> p in ys
    ensures |xs| <= |ys|
    decreases |xs|
  {
    if |xs| > 0 {
      assert xs[0] in ys;
      var k :| 0 <= k < |ys| && ys[k] == xs[0];
      var rest := ys[..k] + ys[k + 1..];
      forall p | p in xs[1..]
        ensures p in rest
      {
        var i :| 1 <= i < |xs| && xs[i] == p;
        assert p != xs[0];
        assert p in ys by { assert p in xs; }
        var j :| 0 <= j < |ys| && ys[j] == p;
        if j < k {
          assert rest[j] == p;
        } else {
          assert rest[j - 1] == p;
        }
      }
      DistinctCoveredIsShorter(xs[1..], rest);
    }
  }

  /** A list of fewer than GRID_CELLS positions leaves some grid cell free. */
  lemma FreeCellExists(exclude: seq<Position>)
    requires |exclude| < GRID_CELLS
    ensures exists c :: InGrid(c) && c !in exclude
  {
    var all := seq(GRID_CELLS, i requires 0 <= i < GRID_CELLS => CellAt(i));
    assert Distinct(all) by {
      forall i, j | 0 <= i < j < |all|
        ensures all[i] != all[j]
      {
        assert i == GRID_SIZE * (i / GRID_SIZE) + i % GRID_SIZE;
        assert j == GRID_SIZE * (j / GRID_SIZE) + j % GRID_SIZE;
      }
    }
    if forall c :: InGrid(c) ==> c in exclude {
      forall p | p in all
        ensures p in exclude
      {
        var i :| 0 <= i < |all| && all[i] == p;
        assert InGrid(CellAt(i));
      }
      DistinctCoveredIsShorter(all, exclude);
      assert false;
    }
  }

  /** A fair run of draws reaches a free cell whenever fewer than GRID_CELLS cells are excluded. */
  lemma FairDrawsReachFreeCell(exclude: seq<Position>, draws: seq<Position>)
    requires FairDraws(draws)
    requires |exclude| < GRID_CELLS
    ensures HasFreeDraw(exclude, draws)
  {
    FreeCellExists(exclude);
    var c :| InGrid(c) && c !in exclude;
    assert c in draws;
    var k :| 0 <= k < |draws| && draws[k] == c;
  }

  // ---------------------------------------------------------------------------
  // Geometry

  /** isPositionEqual compares the two coordinates; that is equality of positions. */
  function IsPositionEqual(pos1: Position, pos2: Position): (r: bool)
    ensures r <==> pos1 == pos2
  {
    pos1.x == pos2.x && pos1.y == pos2.y
  }

  /** Whether some obstacle stands on `p`. */
  predicate OnObstacle(p: Position, obstacles: seq<Obstacle>) {
    exists i :: 0 <= i < |obstacles| && obstacles[i].position == p
  }

  /** The cells of the obstacles, in order. */
  function ObstaclePositions(obstacles: seq<Obstacle>): (r: seq<Position>)
    ensures |r| == |obstacles|
    ensures forall i :: 0 <= i < |obstacles| ==> r[i] == obstacles[i].position
    ensures forall p :: p in r <==> OnObstacle(p, obstacles)
  {
    seq(|obstacles|, i requires 0 <= i < |obstacles| => obstacles[i].position)
  }

  /** isValidMove as declared (three parameters): out of the grid is never valid, phase-through
      accepts any in-grid cell, otherwise an obstacle on the cell makes the move invalid.
      The snake body is not consulted: the head may pass through it. */
  function IsValidMove(newHead: Position, obstacles: seq<Obstacle>, hasPhaseThrough: bool): (r: bool)
    ensures !InGrid(newHead) ==> !r
    ensures InGrid(newHead) && hasPhaseThrough ==> r
    ensures InGrid(newHead) && !hasPhaseThrough ==> (r <==> !OnObstacle(newHead, obstacles))
  {
    if newHead.x < 0 || newHead.x >= GRID_SIZE || newHead.y < 0 || newHead.y >= GRID_SIZE then
      false
    else if hasPhaseThrough then
      true
    else
      !exists i :: 0 <= i < |obstacles| && IsPositionEqual(obstacles[i].position, newHead)
  }

  /** isValidMove as the single-player tick actually invokes it, with four arguments: the new
      head, the snake, the obstacles and the phase-through flag. JavaScript binds the snake to
      the obstacles parameter and the obstacle array to the phase-through parameter. An array
      is truthy, so the call returns true for every in-grid head. */
  function IsValidMoveAsCalled(finalNewHead: Position, snake: Snake, obstacles: seq<Obstacle>, hasPhaseThrough: bool): (r: bool)
    ensures r <==> InGrid(finalNewHead)
  {
    var arrayIsTruthy := true;
    if finalNewHead.x < 0 || finalNewHead.x >= GRID_SIZE || finalNewHead.y < 0 || finalNewHead.y >= GRID_SIZE then
      false
    else
      arrayIsTruthy
  }

  /** The call as written lets the head onto an obstacle; the declared three-argument check
      refuses it. */
  lemma AsCalledIgnoresObstacles()
    ensures var head := Position(5, 5);
            var obstacles := [Obstacle(head, 0)];
            IsValidMoveAsCalled(head, Snake([Position(4, 5)], Right), obstacles, false)
            && !IsValidMove(head, obstacles, false)
  {
    var head := Position(5, 5);
    var obstacles := [Obstacle(head, 0)];
    assert OnObstacle(head, obstacles) by { assert obstacles[0].position == head; }
  }

  /** The cell one step from `head` in `direction`; y grows downwards. Up and down keep the
      column, left and right keep the row; up and left lower the coordinate sum by one, down
      and right raise it by one. */
  function GetNextPosition(head: Position, direction: Direction): (r: Position)
    ensures (direction == Up || direction == Down) <==> r.x == head.x
    ensures (direction == Left || direction == Right) <==> r.y == head.y
    ensures direction == Up || direction == Left ==> r.x + r.y == head.x + head.y - 1
    ensures direction == Down || direction == Right ==> r.x + r.y == head.x + head.y + 1
  {
    match direction
    case Up => Position(head.x, head.y - 1)
    case Down => Position(head.x, head.y + 1)
    case Left => Position(head.x - 1, head.y)
    case Right => Position(head.x + 1, head.y)
  }

  function GetOppositeDirection(direction: Direction): (r: Direction)
    ensures r != direction
  {
    match direction
    case Up => Down
    case Down => Up
    case Left => Right
    case Right => Left
  }

  lemma OppositeIsInvolution(d: Direction)
    ensures GetOppositeDirection(GetOppositeDirection(d)) == d
  {
  }

  /** Opposite directions are exactly the pairs that undo each other. */
  lemma OppositeIffUndoes(d: Direction, e: Direction, p: Position)
    ensures e == GetOppositeDirection(d) <==> GetNextPosition(GetNextPosition(p, d), e) == p
  {
  }

  function GetManhattanDistance(pos1: Position, pos2: Position): (r: nat)
    ensures r == 0 <==> pos1 == pos2
  {
    Abs(pos1.x - pos2.x) + Abs(pos1.y - pos2.y)
  }

  lemma DistanceIsSymmetric(pos1: Position, pos2: Position)
    ensures GetManhattanDistance(pos1, pos2) == GetManhattanDistance(pos2, pos1)
  {
  }

  /** A step changes one coordinate by one: the new head is at distance 1 from the old,
      and stepping back the opposite way returns to the start. */
  lemma StepIsUnitMove(p: Position, d: Direction)
    ensures GetManhattanDistance(GetNextPosition(p, d), p) == 1
    ensures GetNextPosition(GetNextPosition(p, d), GetOppositeDirection(d)) == p
    ensures GetNextPosition(p, d).x == p.x || GetNextPosition(p, d).y == p.y
  {
  }

  // ---------------------------------------------------------------------------
  // Scoring and speed

  function CalculateScore(baseScore: int, level: int, hasDoubleScore: bool): (r: int)
    ensures !hasDoubleScore ==> r == baseScore * level
    ensures hasDoubleScore ==> r == 2 * (baseScore * level)
  {
    var multiplier := if hasDoubleScore then 2 else 1;
    baseScore * level * multiplier
  }

  /** Tick interval in milliseconds: 150 at level 1, 10 less per level, never below 50;
      doubled under slow-motion. */
  function CalculateSpeed(level: int, hasSlowMotion: bool): (r: int)
    ensures r >= MIN_SPEED
    ensures hasSlowMotion ==> r >= 2 * MIN_SPEED
    ensures level == 1 ==> r == (if hasSlowMotion then 2 * INITIAL_SPEED else INITIAL_SPEED)
    ensures level >= 11 ==> r == (if hasSlowMotion then 2 * MIN_SPEED else MIN_SPEED)
  {
    var baseSpeed := Max(INITIAL_SPEED - (level - 1) * SPEED_INCREMENT, 50);
    if hasSlowMotion then baseSpeed * 2 else baseSpeed
  }

  /** A higher level never gives a longer interval. */
  lemma SpeedNonIncreasing(l1: int, l2: int, slow: bool)
    requires l1 <= l2
    ensures CalculateSpeed(l2, slow) <= CalculateSpeed(l1, slow)
  {
  }

  /** Slow-motion exactly doubles the interval. */
  lemma SlowMotionDoubles(level: int)
    ensures CalculateSpeed(level, true) == 2 * CalculateSpeed(level, false)
  {
  }

  // ---------------------------------------------------------------------------
  // Obstacle generation

  /** generateObstacles: `min(floor(level / 3), 8)` obstacles on distinct free cells. Each
      placement is one getRandomPosition call with its own run of draws, excluding the given
      cells and the cells already chosen. Dafny's `/` by 3 is the floor, also for negative
      levels, for which the loop does not run. */
  method GenerateObstacles(level: int, excludePositions: seq<Position>, draws: seq<seq<Position>>, now: int)
    returns (obstacles: seq<Obstacle>)
    requires |excludePositions| + Min(level / 3, 8) <= GRID_CELLS
    requires forall i :: 0 <= i < |draws| ==> FairDraws(draws[i])
    requires |draws| >= Min(level / 3, 8)
    ensures level >= 0 ==> |obstacles| == Min(level / 3, 8)
    ensures level < 0 ==> obstacles == []
    ensures forall i :: 0 <= i < |obstacles| ==>
              InGrid(obstacles[i].position) && obstacles[i].position !in excludePositions
              && obstacles[i].createdAt == now
    ensures Distinct(ObstaclePositions(obstacles))
  {
    var obstacleCount := Min(level / 3, 8);
    obstacles := [];
    var obstaclePositions: seq<Position> := [];
    var i := 0;
    while i < obstacleCount
      invariant 0 <= i <= 8
      invariant obstacleCount >= 0 ==> i <= obstacleCount
      invariant obstacleCount < 0 ==> i == 0
      invariant |obstacles| == i
      invariant obstaclePositions == ObstaclePositions(obstacles)
      invariant forall j :: 0 <= j < i ==>
                  InGrid(obstacles[j].position) && obstacles[j].position !in excludePositions
                  && obstacles[j].createdAt == now
      invariant Distinct(obstaclePositions)
    {
      FairDrawsReachFreeCell(excludePositions + obstaclePositions, draws[i]);
      var position := GetRandomPosition(excludePositions + obstaclePositions, draws[i]);
      obstacles := obstacles + [Obstacle(position, now)];
      obstaclePositions := obstaclePositions + [position];
      i := i + 1;
    }
  }

  /** A draw the far-away placer accepts: at least `minDistance` from the head and not excluded. */
  predicate FarAndFree(p: Position, snakeHead: Position, minDistance: int, excludePositions: seq<Position>) {
    GetManhattanDistance(p, snakeHead) >= minDistance && p !in excludePositions
  }

  /** generateObstaclesAwayFromSnakeHead. The outer loop runs `min(1, 8)` = 1 time, so the list
      of already placed positions is empty in its only round. The do-while loop draws at most
      MAX_ATTEMPTS cells; a cell is kept only when the attempt counter is still below the
      budget after drawing it, so the 100th draw is never used, and only the first 99 draws
      can yield the obstacle. When none of them is acceptable, no obstacle is produced. */
  method GenerateObstaclesAwayFromSnakeHead(snakeHead: Position, minDistance: int, excludePositions: seq<Position>,
                                            draws: seq<Position>, now: int)
    returns (obstacles: seq<Obstacle>)
    requires |draws| >= MAX_ATTEMPTS && AllInGrid(draws)
    ensures |obstacles| <= 1
    ensures obstacles == [] <==>
              forall k :: 0 <= k < MAX_ATTEMPTS - 1 ==> !FarAndFree(draws[k], snakeHead, minDistance, excludePositions)
    ensures forall o :: o in obstacles ==>
              InGrid(o.position) && FarAndFree(o.position, snakeHead, minDistance, excludePositions)
              && o.createdAt == now
    ensures |obstacles| == 1 ==>
              exists k :: 0 <= k < MAX_ATTEMPTS - 1 && obstacles[0].position == draws[k]
                && forall j :: 0 <= j < k ==> !FarAndFree(draws[j], snakeHead, minDistance, excludePositions)
  {
    obstacles := [];
    var attempts := 0;
    var position := draws[attempts];
    attempts := attempts + 1;
    while attempts < MAX_ATTEMPTS && !FarAndFree(position, snakeHead, minDistance, excludePositions)
      invariant 1 <= attempts <= MAX_ATTEMPTS
      invariant position == draws[attempts - 1]
      invariant forall j :: 0 <= j < attempts - 1 ==> !FarAndFree(draws[j], snakeHead, minDistance, excludePositions)
    {
      position := draws[attempts];
      attempts := attempts + 1;
    }
    if attempts < MAX_ATTEMPTS {
      obstacles := obstacles + [Obstacle(position, now)];
    }
  }
}
