/** The state transforms the game's interval timers apply while a game is playing: one more
    food every second, one cloned obstacle every three seconds, and the removal of obstacles
    that have outlived their lifetime, polled every half second. */
module Timers {
  import opened Types
  import opened GameUtils
  import opened GameRules

  /** The food timer: one new food on a cell no snake, obstacle, power-up, food or special
      food occupies; nothing else changes. */
  method RefreshFood(prev: GameState, draws: seq<Position>) returns (next: GameState)
    requires AllInGrid(draws) && HasFreeDraw(Occupied(prev), draws)
    ensures next == prev.(foods := prev.foods + [FirstFree(Occupied(prev), draws)])
    ensures var food := next.foods[|next.foods| - 1];
            InGrid(food) && food !in Occupied(prev)
    ensures ValidState(prev) ==> ValidState(next)
  {
    var excludePositions := BodyCells(prev) + ObstaclePositions(prev.obstacles) + prev.powerUps + prev.foods
                            + SpecialCells(prev.specialFood);
    var newFood := GetRandomPosition(excludePositions, draws);
    next := prev.(foods := prev.foods + [newFood]);
  }

  /** Each refresh occupies one more cell, so the food timer alone exhausts the free cells
      of the grid (and the sampler's termination) after finitely many seconds. */
  lemma RefreshFoodUsesOneCell(prev: GameState, food: Position)
    ensures |Occupied(prev.(foods := prev.foods + [food]))| == |Occupied(prev)| + 1
  {
  }

  /** The index of the first living player, if any. */
  function FindAlive(players: seq<PlayerSnake>): (r: Option<nat>)
    ensures r.Some? ==> r.value < |players| && players[r.value].isAlive
                        && forall i :: 0 <= i < r.value ==> !players[i].isAlive
    ensures r.None? <==> forall i :: 0 <= i < |players| ==> !players[i].isAlive
  {
    if players == [] then None
    else if players[0].isAlive then Some(0)
    else
      var r := FindAlive(players[1..]);
      if r.None? then
        assert forall i :: 1 <= i < |players| ==> players[i] == players[1..][i - 1];
        None
      else Some(r.value + 1)
  }

  /** The reference point of the obstacle clone: the single-player head, or the head of the
      first living player, or the grid centre when every player is dead. */
  function CloneAnchor(s: GameState): (r: Position)
    requires ValidState(s)
    ensures s.gameMode == Single ==> r == s.snake.body[0]
    ensures s.gameMode == Multi && s.players[0].isAlive ==> r == s.players[0].body[0]
    ensures s.gameMode == Multi && !s.players[0].isAlive && s.players[1].isAlive ==> r == s.players[1].body[0]
    ensures s.gameMode == Multi && !s.players[0].isAlive && !s.players[1].isAlive ==> r == Position(10, 10)
  {
    if s.gameMode == Single then s.snake.body[0]
    else
      var alive := FindAlive(s.players);
      if alive.Some? then s.players[alive.value].body[0] else Position(10, 10)
  }

  /** What the obstacle-clone timer produces from `prev`: the old obstacles stay, in order,
      followed by at most one new obstacle, at distance 7 or more from the anchor, on a cell
      nothing occupies, stamped with the current time; none is added exactly when no usable
      draw qualifies; nothing else changes. */
  predicate CloneOutcome(prev: GameState, draws: seq<Position>, now: int, next: GameState)
    requires ValidState(prev) && |draws| >= MAX_ATTEMPTS
  {
    && next == prev.(obstacles := next.obstacles)
    && |prev.obstacles| <= |next.obstacles| <= |prev.obstacles| + 1
    && next.obstacles[..|prev.obstacles|] == prev.obstacles
    && (|next.obstacles| == |prev.obstacles| + 1 ==>
          var o := next.obstacles[|prev.obstacles|];
          InGrid(o.position) && o.createdAt == now && o.position !in Occupied(prev)
          && GetManhattanDistance(o.position, CloneAnchor(prev)) >= OBSTACLE_MIN_DISTANCE)
    && (|next.obstacles| == |prev.obstacles| <==>
          forall k :: 0 <= k < MAX_ATTEMPTS - 1 ==>
            !FarAndFree(draws[k], CloneAnchor(prev), OBSTACLE_MIN_DISTANCE, Occupied(prev)))
  }

  /** The obstacle-clone timer. */
  method CloneObstacle(prev: GameState, draws: seq<Position>, now: int) returns (next: GameState)
    requires ValidState(prev)
    requires |draws| >= MAX_ATTEMPTS && AllInGrid(draws)
    ensures CloneOutcome(prev, draws, now, next)
    ensures ValidState(next)
  {
    var snakeHead := CloneAnchor(prev);
    var excludePositions := BodyCells(prev) + ObstaclePositions(prev.obstacles) + prev.powerUps + prev.foods
                            + SpecialCells(prev.specialFood);
    var newObstacle := GenerateObstaclesAwayFromSnakeHead(snakeHead, OBSTACLE_MIN_DISTANCE, excludePositions, draws, now);
    next := prev.(obstacles := prev.obstacles + newObstacle[..Min(1, |newObstacle|)]);
  }

  /** The obstacles, in order, whose age at `now` is below their own lifetime draw. */
  function KeepYoung(obstacles: seq<Obstacle>, lifetimes: seq<int>, now: int): (r: seq<Obstacle>)
    requires |lifetimes| == |obstacles|
    ensures |r| <= |obstacles|
    ensures forall o :: o in r ==> o in obstacles
    decreases |obstacles|
  {
    if obstacles == [] then []
    else
      var rest := KeepYoung(obstacles[1..], lifetimes[1..], now);
      if now - obstacles[0].createdAt < lifetimes[0] then [obstacles[0]] + rest else rest
  }

  /** An obstacle is kept exactly when its age is below its lifetime. */
  lemma {:induction false} KeepYoungKeeps(obstacles: seq<Obstacle>, lifetimes: seq<int>, now: int)
    requires |lifetimes| == |obstacles|
    ensures forall i :: 0 <= i < |obstacles| && now - obstacles[i].createdAt < lifetimes[i] ==>
              obstacles[i] in KeepYoung(obstacles, lifetimes, now)
    ensures forall o :: o in KeepYoung(obstacles, lifetimes, now) ==>
              exists i :: 0 <= i < |obstacles| && obstacles[i] == o && now - o.createdAt < lifetimes[i]
    decreases |obstacles|
  {
    if obstacles != [] {
      KeepYoungKeeps(obstacles[1..], lifetimes[1..], now);
      forall i | 1 <= i < |obstacles| && now - obstacles[i].createdAt < lifetimes[i]
        ensures obstacles[i] in KeepYoung(obstacles, lifetimes, now)
      {
        assert obstacles[1..][i - 1] == obstacles[i];
        assert lifetimes[1..][i - 1] == lifetimes[i];
      }
      forall o | o in KeepYoung(obstacles, lifetimes, now)
        ensures exists i :: 0 <= i < |obstacles| && obstacles[i] == o && now - o.createdAt < lifetimes[i]
      {
        if o in KeepYoung(obstacles[1..], lifetimes[1..], now) {
          var j :| 0 <= j < |obstacles[1..]| && obstacles[1..][j] == o && now - o.createdAt < lifetimes[1..][j];
          assert obstacles[j + 1] == o && lifetimes[j + 1] == lifetimes[1..][j];
        } else {
          assert obstacles[0] == o;
        }
      }
    }
  }

  /** A lifetime draw lies between 4 and 9 seconds: for an age in whole milliseconds, the
      draw acts as a bound between these two. */
  const MIN_LIFETIME := 4000
  const MAX_LIFETIME := 9000

  /** The cleanup timer: drops every obstacle whose age reaches its lifetime. */
  function CleanupObstacles(prev: GameState, now: int, lifetimes: seq<int>): (next: GameState)
    requires |lifetimes| == |prev.obstacles|
    ensures next == prev.(obstacles := KeepYoung(prev.obstacles, lifetimes, now))
    ensures ValidState(prev) ==> ValidState(next)
  {
    prev.(obstacles := KeepYoung(prev.obstacles, lifetimes, now))
  }

  /** With every lifetime between 4 and 9 seconds, a cleanup keeps every obstacle younger than
      4 seconds and leaves none that is 9 seconds old or more. */
  lemma CleanupWindow(prev: GameState, now: int, lifetimes: seq<int>)
    requires |lifetimes| == |prev.obstacles|
    requires forall i :: 0 <= i < |lifetimes| ==> MIN_LIFETIME <= lifetimes[i] <= MAX_LIFETIME
    ensures forall o :: o in prev.obstacles && now - o.createdAt < MIN_LIFETIME ==>
              o in CleanupObstacles(prev, now, lifetimes).obstacles
    ensures forall o :: o in CleanupObstacles(prev, now, lifetimes).obstacles ==> now - o.createdAt < MAX_LIFETIME
  {
    KeepYoungKeeps(prev.obstacles, lifetimes, now);
    forall o | o in prev.obstacles && now - o.createdAt < MIN_LIFETIME
      ensures o in CleanupObstacles(prev, now, lifetimes).obstacles
    {
      var i :| 0 <= i < |prev.obstacles| && prev.obstacles[i] == o;
    }
  }
}
