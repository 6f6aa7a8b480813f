/** The single-player movement tick: move the head, wrap it under phase-through, check the
    move unless invincible, then grow, eat (plain food, special food, power-up, in that
    order), trim the tail when nothing was eaten, and level up. */
module SingleTick {
  import opened Types
  import opened GameUtils
  import opened GameRules
  import opened Handlers

  /** Phase-through wraparound as the source writes it: every test reads the unwrapped head
      and replaces one coordinate of it, so a later matching test overrides an earlier one. */
  function Wrap(newHead: Position): (r: Position)
    // at most one coordinate is replaced; an off-grid y wins over an off-grid x
    ensures 0 <= newHead.y < GRID_SIZE ==>
              r.y == newHead.y
              && r.x == (if newHead.x < 0 then GRID_SIZE - 1 else if newHead.x >= GRID_SIZE then 0 else newHead.x)
    ensures !(0 <= newHead.y < GRID_SIZE) ==>
              r.x == newHead.x && r.y == (if newHead.y < 0 then GRID_SIZE - 1 else 0)
  {
    var w := newHead;
    var w := if newHead.x < 0 then newHead.(x := GRID_SIZE - 1) else w;
    var w := if newHead.x >= GRID_SIZE then newHead.(x := 0) else w;
    var w := if newHead.y < 0 then newHead.(y := GRID_SIZE - 1) else w;
    if newHead.y >= GRID_SIZE then newHead.(y := 0) else w
  }

  /** A one-step move from a cell of the grid wraps back onto the grid: -1 becomes 19 and 20
      becomes 0 on the axis it crossed, and a move that stays on the grid is left alone. */
  lemma WrapOneStep(head: Position, d: Direction)
    requires InGrid(head)
    ensures InGrid(Wrap(GetNextPosition(head, d)))
    ensures InGrid(GetNextPosition(head, d)) ==> Wrap(GetNextPosition(head, d)) == GetNextPosition(head, d)
    ensures GetNextPosition(head, d).x == -1 ==> Wrap(GetNextPosition(head, d)) == Position(GRID_SIZE - 1, head.y)
    ensures GetNextPosition(head, d).x == GRID_SIZE ==> Wrap(GetNextPosition(head, d)) == Position(0, head.y)
    ensures GetNextPosition(head, d).y == -1 ==> Wrap(GetNextPosition(head, d)) == Position(head.x, GRID_SIZE - 1)
    ensures GetNextPosition(head, d).y == GRID_SIZE ==> Wrap(GetNextPosition(head, d)) == Position(head.x, 0)
  {
  }

  predicate HasPowerUp(s: GameState, kind: PowerUpType) {
    s.powerUpActive == Some(kind)
  }

  /** The cell the single-player head moves to this tick. */
  function TickHead(s: GameState): Position
    requires |s.snake.body| >= 1
  {
    var newHead := GetNextPosition(s.snake.body[0], s.snake.direction);
    if HasPowerUp(s, PhaseThrough) then Wrap(newHead) else newHead
  }

  /** The tick goes on unless the move is invalid and the snake is not invincible. */
  predicate Survives(s: GameState)
    requires |s.snake.body| >= 1
  {
    HasPowerUp(s, Invincible) || IsValidMove(TickHead(s), s.obstacles, HasPowerUp(s, PhaseThrough))
  }

  /** From a head on the grid: invincibility and phase-through each guarantee survival (the
      latter because the wrapped head is on the grid and phase-through skips the obstacle
      test); otherwise the tick survives exactly when the next cell is on the grid and free of
      obstacles. */
  lemma SurvivalRule(s: GameState)
    requires |s.snake.body| >= 1 && InGrid(s.snake.body[0])
    ensures HasPowerUp(s, Invincible) || HasPowerUp(s, PhaseThrough) ==> Survives(s)
    ensures !HasPowerUp(s, Invincible) && !HasPowerUp(s, PhaseThrough) ==>
              (Survives(s) <==> InGrid(TickHead(s)) && !OnObstacle(TickHead(s), s.obstacles))
  {
    WrapOneStep(s.snake.body[0], s.snake.direction);
  }

  /** Whether the head lands on anything edible: a plain food, the special food or a power-up. */
  predicate EatsSomething(s: GameState, head: Position) {
    head in s.foods || s.specialFood == Some(head) || head in s.powerUps
  }

  /** Points earned by the tick: 10 per level for a plain food, 50 per level for the special
      food, both doubled under double-score. */
  function TickPoints(s: GameState, head: Position): int {
    var dbl := HasPowerUp(s, DoubleScore);
    (if head in s.foods then CalculateScore(FOOD_POINTS, s.level, dbl) else 0)
    + (if s.specialFood == Some(head) then CalculateScore(SPECIAL_FOOD_POINTS, s.level, dbl) else 0)
  }

  /** generateSpecialFood: with the 20% roll, a free cell for the special food. */
  method GenerateSpecialFood(excludePositions: seq<Position>, roll: bool, draws: seq<Position>)
    returns (r: Option<Position>)
    requires roll ==> AllInGrid(draws) && HasFreeDraw(excludePositions, draws)
    ensures r.Some? <==> roll
    ensures r.Some? ==> InGrid(r.value) && r.value !in excludePositions
                        && r.value == FirstFree(excludePositions, draws)
  {
    if roll {
      var p := GetRandomPosition(excludePositions, draws);
      return Some(p);
    }
    return None;
  }

  /** generatePowerUp: with the 15% roll, one power-up whose x comes from one free-cell
      placement and whose y from another. The combined cell is on the grid but need not be
      free (see PowerUpCellMayBeTaken). */
  method GeneratePowerUp(excludePositions: seq<Position>, roll: bool, drawsX: seq<Position>, drawsY: seq<Position>)
    returns (r: seq<Position>)
    requires roll ==> AllInGrid(drawsX) && HasFreeDraw(excludePositions, drawsX)
    requires roll ==> AllInGrid(drawsY) && HasFreeDraw(excludePositions, drawsY)
    ensures |r| == if roll then 1 else 0
    ensures roll ==> InGrid(r[0])
                     && r[0] == Position(FirstFree(excludePositions, drawsX).x, FirstFree(excludePositions, drawsY).y)
  {
    if roll {
      var px := GetRandomPosition(excludePositions, drawsX);
      var py := GetRandomPosition(excludePositions, drawsY);
      return [Position(px.x, py.y)];
    }
    return [];
  }

  /** Two free placements can combine into a taken cell: (0, 1) and (1, 0) are free, (0, 0)
      is not. */
  lemma PowerUpCellMayBeTaken()
    ensures var exclude := [Position(0, 0)];
            var drawsX := [Position(0, 1)];
            var drawsY := [Position(1, 0)];
            HasFreeDraw(exclude, drawsX) && HasFreeDraw(exclude, drawsY)
            && Position(FirstFree(exclude, drawsX).x, FirstFree(exclude, drawsY).y) in exclude
  {
    var exclude := [Position(0, 0)];
    assert [Position(0, 1)][0] !in exclude;
    assert [Position(1, 0)][0] !in exclude;
  }

  /** The foods left by a tick onto `head`: the eaten food leaves its place and the others
      keep their order. */
  predicate FoodsLeft(foods: seq<Position>, head: Position, newFoods: seq<Position>) {
    if head in foods then newFoods == RemoveAt(foods, IndexOf(foods, head)) else newFoods == foods
  }

  /** The plain-food part of the tick, for a head that lands on a food: that food is
      removed; without a special food on the grid, the 20% roll may place one on a free cell;
      without a power-up on the grid, the 15% roll may place one. */
  method EatPlainFood(prev: GameState, head: Position, d: TickDraws)
    returns (newFoods: seq<Position>, newSpecialFood: Option<Position>, newPowerUps: seq<Position>)
    requires ValidState(prev) && prev.gameMode == Single && TickDrawsOk(d) && HasRoom(prev)
    requires head in prev.foods
    ensures multiset(newFoods) == multiset(prev.foods) - multiset{head}
    ensures Distinct(newFoods) && head !in newFoods && FoodsLeft(prev.foods, head, newFoods)
    ensures prev.specialFood.Some? ==> newSpecialFood == prev.specialFood
    ensures prev.specialFood.None? ==> (newSpecialFood.Some? <==> d.eat1.specialRoll)
    ensures prev.specialFood.None? && newSpecialFood.Some? ==>
              var c := newSpecialFood.value;
              InGrid(c) && c != head && c !in prev.snake.body && !OnObstacle(c, prev.obstacles)
              && c !in prev.powerUps && c !in newFoods
    ensures prev.powerUps != [] ==> newPowerUps == prev.powerUps
    ensures prev.powerUps == [] ==>
              |newPowerUps| == (if d.powerUpRoll then 1 else 0) && forall p :: p in newPowerUps ==> InGrid(p)
  {
    var newBody := [head] + prev.snake.body;
    var eatenFoodIndex := IndexOf(prev.foods, head);
    newFoods := RemoveAt(prev.foods, eatenFoodIndex);
    newSpecialFood := prev.specialFood;
    newPowerUps := prev.powerUps;
    var obstaclePositions := ObstaclePositions(prev.obstacles);

    if prev.specialFood.None? {
      var excludePositions := newBody + obstaclePositions + prev.powerUps + newFoods;
      FairDrawsReachFreeCell(excludePositions, d.eat1.specialCells);
      newSpecialFood := GenerateSpecialFood(excludePositions, d.eat1.specialRoll, d.eat1.specialCells);
    }

    if |prev.powerUps| == 0 {
      var excludeAll := newBody + obstaclePositions + newFoods + SpecialCells(newSpecialFood);
      FairDrawsReachFreeCell(excludeAll, d.powerUpCellsX);
      FairDrawsReachFreeCell(excludeAll, d.powerUpCellsY);
      newPowerUps := GeneratePowerUp(excludeAll, d.powerUpRoll, d.powerUpCellsX, d.powerUpCellsY);
    }
  }

  /** What the eating part of the tick leaves: the grown or moved body, the remaining foods,
      special food and power-ups, the new score, and the power-up kind to activate, if any. */
  datatype Meal = Meal(
    body: seq<Position>,
    foods: seq<Position>,
    specialFood: Option<Position>,
    powerUps: seq<Position>,
    score: int,
    activated: Option<PowerUpType>)

  /** The food part of a surviving tick with new head `head`: the plain food (with the spawns
      it triggers), then the special food, and the points they earn. */
  method EatFood(prev: GameState, head: Position, d: TickDraws)
    returns (newFoods: seq<Position>, newSpecialFood: Option<Position>, newPowerUps: seq<Position>, gained: int)
    requires ValidState(prev) && prev.gameMode == Single && TickDrawsOk(d) && HasRoom(prev)
    ensures gained == TickPoints(prev, head)
    ensures multiset(newFoods) == multiset(prev.foods) - multiset{head} && Distinct(newFoods)
    ensures FoodsLeft(prev.foods, head, newFoods)
    ensures prev.specialFood == Some(head) ==> newSpecialFood == None
    ensures prev.specialFood.Some? && prev.specialFood != Some(head) ==> newSpecialFood == prev.specialFood
    ensures prev.specialFood.None? ==> (newSpecialFood.Some? <==> head in prev.foods && d.eat1.specialRoll)
    ensures prev.specialFood.None? && newSpecialFood.Some? ==>
              var c := newSpecialFood.value;
              InGrid(c) && c !in prev.snake.body && c != head && !OnObstacle(c, prev.obstacles)
              && c !in prev.powerUps && c !in newFoods
    ensures !(prev.powerUps == [] && head in prev.foods) ==> newPowerUps == prev.powerUps
    ensures prev.powerUps == [] && head in prev.foods ==>
              |newPowerUps| == (if d.powerUpRoll then 1 else 0) && forall p :: p in newPowerUps ==> InGrid(p)
  {
    newFoods := prev.foods;
    newSpecialFood := prev.specialFood;
    newPowerUps := prev.powerUps;
    gained := 0;
    var hasDoubleScore := prev.powerUpActive == Some(DoubleScore);

    if head in prev.foods {
      gained := CalculateScore(FOOD_POINTS, prev.level, hasDoubleScore);
      newFoods, newSpecialFood, newPowerUps := EatPlainFood(prev, head, d);
    } else {
      assert multiset(prev.foods) - multiset{head} == multiset(prev.foods);
    }

    if prev.specialFood.Some? && head == prev.specialFood.value {
      gained := gained + CalculateScore(SPECIAL_FOOD_POINTS, prev.level, hasDoubleScore);
      newSpecialFood := None;
    }
  }

  /** The power-up part of a surviving tick with new head `head`: a power-up under the head
      is taken off the grid (`powerUps` is what the food part left) and its kind is drawn. */
  method EatPowerUp(prev: GameState, head: Position, d: TickDraws, powerUps: seq<Position>)
    returns (newPowerUps: seq<Position>, activated: Option<PowerUpType>)
    requires ValidState(prev) && TickDrawsOk(d)
    ensures head in prev.powerUps ==> newPowerUps == [] && activated == Some(POWER_UP_TYPES[d.eat1.powerUpIndex])
    ensures head !in prev.powerUps ==> newPowerUps == powerUps && activated == None
  {
    newPowerUps := powerUps;
    activated := None;
    var powerUpIndex := IndexOf(prev.powerUps, head);
    if powerUpIndex != -1 {
      newPowerUps := RemoveAt(prev.powerUps, powerUpIndex);
      activated := Some(POWER_UP_TYPES[d.eat1.powerUpIndex]);
    }
  }

  /** The consumption part of a surviving tick with new head `head`, in the source's order:
      plain food, then special food, then power-up. Reports whether anything was eaten and
      the points gained. */
  method Consume(prev: GameState, head: Position, d: TickDraws)
    returns (newFoods: seq<Position>, newSpecialFood: Option<Position>, newPowerUps: seq<Position>,
             ateFood: bool, gained: int, activated: Option<PowerUpType>)
    requires ValidState(prev) && prev.gameMode == Single && TickDrawsOk(d) && HasRoom(prev)
    ensures ateFood == EatsSomething(prev, head)
    ensures gained == TickPoints(prev, head)
    ensures multiset(newFoods) == multiset(prev.foods) - multiset{head} && Distinct(newFoods)
    ensures FoodsLeft(prev.foods, head, newFoods)
    ensures prev.specialFood == Some(head) ==> newSpecialFood == None
    ensures prev.specialFood.Some? && prev.specialFood != Some(head) ==> newSpecialFood == prev.specialFood
    ensures prev.specialFood.None? ==> (newSpecialFood.Some? <==> head in prev.foods && d.eat1.specialRoll)
    ensures prev.specialFood.None? && newSpecialFood.Some? ==>
              var c := newSpecialFood.value;
              InGrid(c) && c !in prev.snake.body && c != head && !OnObstacle(c, prev.obstacles)
              && c !in prev.powerUps && c !in newFoods
    ensures head in prev.powerUps ==> newPowerUps == [] && activated == Some(POWER_UP_TYPES[d.eat1.powerUpIndex])
    ensures head !in prev.powerUps ==> activated == None
    ensures head !in prev.powerUps && !(prev.powerUps == [] && head in prev.foods) ==> newPowerUps == prev.powerUps
    ensures prev.powerUps == [] && head in prev.foods ==>
              |newPowerUps| == (if d.powerUpRoll then 1 else 0) && forall p :: p in newPowerUps ==> InGrid(p)
    ensures |newPowerUps| <= 1
  {
    var afterFood;
    newFoods, newSpecialFood, afterFood, gained := EatFood(prev, head, d);
    newPowerUps, activated := EatPowerUp(prev, head, d, afterFood);
    ateFood := head in prev.foods || prev.specialFood == Some(head) || activated.Some?;
  }

  /** The eating part of a surviving tick with new head `head`: consumption, then the tail
      trim when nothing was eaten. */
  method Eat(prev: GameState, head: Position, d: TickDraws) returns (m: Meal)
    requires ValidState(prev) && prev.gameMode == Single && TickDrawsOk(d) && HasRoom(prev)
    ensures var body := prev.snake.body;
            m.body == (if EatsSomething(prev, head) then [head] + body else [head] + body[..|body| - 1])
    ensures multiset(m.foods) == multiset(prev.foods) - multiset{head} && Distinct(m.foods)
    ensures FoodsLeft(prev.foods, head, m.foods)
    ensures m.score == prev.score + TickPoints(prev, head)
    ensures prev.specialFood == Some(head) ==> m.specialFood == None
    ensures prev.specialFood.Some? && prev.specialFood != Some(head) ==> m.specialFood == prev.specialFood
    ensures prev.specialFood.None? ==> (m.specialFood.Some? <==> head in prev.foods && d.eat1.specialRoll)
    ensures prev.specialFood.None? && m.specialFood.Some? ==>
              var c := m.specialFood.value;
              InGrid(c) && c !in m.body && c != head && !OnObstacle(c, prev.obstacles)
              && c !in prev.powerUps && c !in m.foods
    ensures head in prev.powerUps ==> m.powerUps == [] && m.activated == Some(POWER_UP_TYPES[d.eat1.powerUpIndex])
    ensures head !in prev.powerUps ==> m.activated == None
    ensures head !in prev.powerUps && !(prev.powerUps == [] && head in prev.foods) ==> m.powerUps == prev.powerUps
    ensures prev.powerUps == [] && head in prev.foods ==>
              |m.powerUps| == (if d.powerUpRoll then 1 else 0) && forall p :: p in m.powerUps ==> InGrid(p)
    ensures |m.powerUps| <= 1
  {
    var newBody := [head] + prev.snake.body;
    var newFoods, newSpecialFood, newPowerUps, ateFood, gained, activated := Consume(prev, head, d);
    if !ateFood {
      newBody := newBody[..|newBody| - 1];
    }
    m := Meal(newBody, newFoods, newSpecialFood, newPowerUps, prev.score + gained, activated);
  }

  /** The level-up obstacle list: empty exactly when none of the usable draws is far from
      `head` and off `exclude`, and otherwise the first usable draw that is. */
  predicate FirstFarDraw(head: Position, exclude: seq<Position>, draws: seq<Position>, obstacles: seq<Obstacle>)
    requires |draws| >= MAX_ATTEMPTS
  {
    && (obstacles == [] <==>
          forall k :: 0 <= k < MAX_ATTEMPTS - 1 ==> !FarAndFree(draws[k], head, OBSTACLE_MIN_DISTANCE, exclude))
    && (|obstacles| == 1 ==>
          exists k :: 0 <= k < MAX_ATTEMPTS - 1 && obstacles[0].position == draws[k]
            && forall j :: 0 <= j < k ==> !FarAndFree(draws[j], head, OBSTACLE_MIN_DISTANCE, exclude))
  }

  /** The level check closing a surviving tick: with `m.score` at least level * 100 the
      level goes up by one, the obstacles are replaced by at most one obstacle far from the
      new head and off every listed cell, and the speed is recomputed; otherwise obstacles and
      speed stay. Everything else is taken from the meal. */
  method SettleLevel(prev: GameState, m: Meal, d: TickDraws) returns (next: GameState)
    requires |m.body| >= 1 && |d.obstacleCells| >= MAX_ATTEMPTS && AllInGrid(d.obstacleCells)
    ensures next == prev.(snake := prev.snake.(body := m.body), foods := m.foods, specialFood := m.specialFood,
                          powerUps := m.powerUps, score := m.score,
                          level := next.level, obstacles := next.obstacles, speed := next.speed)
    ensures next.level == if m.score >= prev.level * 100 then prev.level + 1 else prev.level
    ensures next.level == prev.level ==> next.obstacles == prev.obstacles && next.speed == prev.speed
    ensures next.level != prev.level ==>
              |next.obstacles| <= 1
              && next.speed == CalculateSpeed(prev.level + 1, HasPowerUp(prev, SlowMotion))
              && forall o :: o in next.obstacles ==>
                   InGrid(o.position) && o.createdAt == d.now
                   && GetManhattanDistance(o.position, m.body[0]) >= OBSTACLE_MIN_DISTANCE
                   && o.position !in m.body && o.position !in m.foods
                   && o.position !in m.powerUps && Some(o.position) != m.specialFood
    ensures next.level != prev.level ==>
              FirstFarDraw(m.body[0], m.body + m.foods + m.powerUps + SpecialCells(m.specialFood),
                           d.obstacleCells, next.obstacles)
  {
    var newLevel := prev.level;
    if m.score >= prev.level * 100 {
      newLevel := prev.level + 1;
      var excludePositions := m.body + m.foods + m.powerUps + SpecialCells(m.specialFood);
      var newObstacles := GenerateObstaclesAwayFromSnakeHead(m.body[0], OBSTACLE_MIN_DISTANCE, excludePositions,
                                                             d.obstacleCells, d.now);
      next := prev.(
        snake := prev.snake.(body := m.body),
        foods := m.foods,
        specialFood := m.specialFood,
        powerUps := m.powerUps,
        obstacles := newObstacles,
        score := m.score,
        level := newLevel,
        speed := CalculateSpeed(newLevel, prev.powerUpActive == Some(SlowMotion)));
    } else {
      next := prev.(
        snake := prev.snake.(body := m.body),
        foods := m.foods,
        specialFood := m.specialFood,
        powerUps := m.powerUps,
        score := m.score,
        level := newLevel);
    }
  }

  /** What a playing single-player tick produces from `prev`. A fatal move ends the game and
      changes nothing else. Otherwise the new head goes in front of the old body and the tail
      goes exactly when nothing was eaten; an eaten plain food is removed once and scores; the
      special food is eaten, kept, or (after a plain food, with the roll) spawned on a free
      cell; an eaten power-up leaves the grid and activates the drawn kind for the full
      duration; the level rises by one exactly when the new score reaches level × 100, and a
      level-up replaces the obstacles by at most one far, free obstacle and recomputes the
      speed. Mode, players and direction never change. */
  predicate SingleOutcome(prev: GameState, d: TickDraws, next: GameState)
    requires |prev.snake.body| >= 1 && d.eat1.powerUpIndex < |POWER_UP_TYPES| && |d.obstacleCells| >= MAX_ATTEMPTS
  {
    if !Survives(prev) then next == prev.(gameStatus := GameOver) else SurvivedTick(prev, d, next)
  }

  /** The surviving branch of `SingleOutcome`. */
  predicate SurvivedTick(prev: GameState, d: TickDraws, next: GameState)
    requires |prev.snake.body| >= 1 && d.eat1.powerUpIndex < |POWER_UP_TYPES| && |d.obstacleCells| >= MAX_ATTEMPTS
  {
    var h := TickHead(prev);
    var body := prev.snake.body;
    && next.gameStatus == Playing && next.gameMode == Single
      && next.players == prev.players && next.snake.direction == prev.snake.direction
      && next.snake.body == (if EatsSomething(prev, h) then [h] + body else [h] + body[..|body| - 1])
      && multiset(next.foods) == multiset(prev.foods) - multiset{h} && FoodsLeft(prev.foods, h, next.foods)
      && next.score == prev.score + TickPoints(prev, h)
      // special food
      && (prev.specialFood == Some(h) ==> next.specialFood == None)
      && (prev.specialFood.Some? && prev.specialFood != Some(h) ==> next.specialFood == prev.specialFood)
      && (prev.specialFood.None? ==> (next.specialFood.Some? <==> h in prev.foods && d.eat1.specialRoll))
      && (prev.specialFood.None? && next.specialFood.Some? ==>
            var c := next.specialFood.value;
            InGrid(c) && c !in next.snake.body && !OnObstacle(c, prev.obstacles)
            && c !in prev.powerUps && c !in next.foods)
      // power-ups
      && (h in prev.powerUps ==>
            next.powerUps == [] && next.powerUpActive == Some(POWER_UP_TYPES[d.eat1.powerUpIndex])
            && next.powerUpTimer == POWER_UP_DURATION)
      && (h !in prev.powerUps ==> next.powerUpActive == prev.powerUpActive && next.powerUpTimer == prev.powerUpTimer)
      && (h !in prev.powerUps && !(prev.powerUps == [] && h in prev.foods) ==> next.powerUps == prev.powerUps)
      && (prev.powerUps == [] && h in prev.foods ==>
            |next.powerUps| == (if d.powerUpRoll then 1 else 0) && forall p :: p in next.powerUps ==> InGrid(p))
      // level, obstacles and speed
      && next.level == (if next.score >= prev.level * 100 then prev.level + 1 else prev.level)
      && (next.level != prev.level ==>
            |next.obstacles| <= 1
            && next.speed == CalculateSpeed(prev.level + 1, HasPowerUp(prev, SlowMotion))
            && forall o :: o in next.obstacles ==>
                 InGrid(o.position) && o.createdAt == d.now
                 && GetManhattanDistance(o.position, h) >= OBSTACLE_MIN_DISTANCE
                 && o.position !in next.snake.body && o.position !in next.foods
                 && o.position !in next.powerUps && Some(o.position) != next.specialFood)
      && (next.level != prev.level ==>
            FirstFarDraw(h, next.snake.body + next.foods + next.powerUps + SpecialCells(next.specialFood),
                         d.obstacleCells, next.obstacles))
      && (next.level == prev.level ==> next.obstacles == prev.obstacles && next.speed == prev.speed)
  }

  /** The single-player branch of moveSnake, for a playing single-player game. */
  method MoveSingle(prev: GameState, d: TickDraws) returns (next: GameState)
    requires prev.gameMode == Single && prev.gameStatus == Playing && ValidState(prev)
    requires TickDrawsOk(d) && HasRoom(prev)
    ensures ValidState(next)
    ensures SingleOutcome(prev, d, next)
  {
    var snake := prev.snake;
    var head := snake.body[0];
    var newHead := GetNextPosition(head, snake.direction);
    var hasPhaseThrough := prev.powerUpActive == Some(PhaseThrough);
    var hasInvincible := prev.powerUpActive == Some(Invincible);

    var finalNewHead := newHead;
    if hasPhaseThrough {
      finalNewHead := Wrap(newHead);
    }

    // the intended three-argument check (see IsValidMoveAsCalled)
    if !hasInvincible && !IsValidMove(finalNewHead, prev.obstacles, hasPhaseThrough) {
      return prev.(gameStatus := GameOver);
    }

    assert finalNewHead == TickHead(prev);
    next := AdvanceSingle(prev, d);
  }

  /** A surviving single-player tick: eat, settle the level, then apply the queued
      activation. */
  method AdvanceSingle(prev: GameState, d: TickDraws) returns (next: GameState)
    requires prev.gameMode == Single && prev.gameStatus == Playing && ValidState(prev)
    requires TickDrawsOk(d) && HasRoom(prev) && Survives(prev)
    ensures ValidState(next)
    ensures SurvivedTick(prev, d, next)
  {
    var m := Eat(prev, TickHead(prev), d);
    next := SettleLevel(prev, m, d);
    // the activation queued during the update lands on top of its result
    if m.activated.Some? {
      next := ActivatePowerUp(next, m.activated.value);
    }
  }
}
