/** The two-player movement tick: player 1 then player 2 move, each judged against the other
    player's pre-tick body, each eating from the food, special food and power-up pools the
    previous player left; the pre-tick bodies of players who died this tick become food; the
    game ends with the best score once no player is alive. Two-player scoring never doubles,
    and a level-up changes neither speed nor obstacles. */
module MultiTick {
  import opened Types
  import opened GameUtils
  import opened GameRules
  import opened Handlers

  /** The edible things the players share during one tick. */
  datatype Pools = Pools(foods: seq<Position>, specialFood: Option<Position>, powerUps: seq<Position>)

  function PoolSize(pools: Pools): nat {
    |pools.foods| + |pools.powerUps| + |SpecialCells(pools.specialFood)|
  }

  predicate PoolsOk(pools: Pools) {
    Distinct(pools.foods) && |pools.powerUps| <= 1
  }

  function PlayerHead(player: PlayerSnake): Position
    requires |player.body| >= 1
  {
    GetNextPosition(player.body[0], player.direction)
  }

  /** A moving player dies on leaving the grid, on an obstacle, or on the other player's
      pre-tick body when that player is alive; its own body never kills it. */
  predicate Collides(player: PlayerSnake, other: PlayerSnake, obstacles: seq<Obstacle>)
    requires |player.body| >= 1
    // the single-player move check without phase-through, plus the other living snake
    ensures Collides(player, other, obstacles) <==>
              !IsValidMove(PlayerHead(player), obstacles, false) || (other.isAlive && PlayerHead(player) in other.body)
  {
    var h := PlayerHead(player);
    !InGrid(h) || OnObstacle(h, obstacles) || (other.isAlive && h in other.body)
  }

  /** The cells a special-food spawn avoids: every pre-tick body, the obstacles, the current
      power-ups and the foods left after the meal. The moving head is not among them. */
  function SpawnExclude(bodies: seq<Position>, obstacles: seq<Obstacle>, powerUps: seq<Position>,
                        foodsLeft: seq<Position>): seq<Position> {
    bodies + ObstaclePositions(obstacles) + powerUps + foodsLeft
  }

  /** Whether a surviving player with new head `h` ends up eating the special food: it was
      already there, or the player's own plain food spawned it right under the head. */
  predicate AteSpecial(before: Pools, after: Pools, h: Position, eat: EatDraws) {
    before.specialFood == Some(h)
    || (before.specialFood.None? && h in before.foods && eat.specialRoll && after.specialFood.None?)
  }

  /** The plain-food part of a player's move onto a food at `h`: that food goes; with no
      special food in play, the 20% roll places one on a cell off every pre-tick body. */
  method EatPlainFood(pools: Pools, h: Position, bodies: seq<Position>, obstacles: seq<Obstacle>, eat: EatDraws)
    returns (next: Pools)
    requires PoolsOk(pools) && h in pools.foods && EatDrawsOk(eat)
    requires |bodies| + |obstacles| + PoolSize(pools) + 1 < GRID_CELLS
    ensures PoolsOk(next) && PoolSize(next) <= PoolSize(pools)
    ensures next.powerUps == pools.powerUps
    ensures multiset(next.foods) == multiset(pools.foods) - multiset{h} && h !in next.foods
    ensures pools.specialFood.Some? ==> next.specialFood == pools.specialFood
    ensures pools.specialFood.None? ==> (next.specialFood.Some? <==> eat.specialRoll)
    ensures next.specialFood.Some? && pools.specialFood.None? ==>
              var c := next.specialFood.value;
              InGrid(c) && c !in bodies && !OnObstacle(c, obstacles) && c !in pools.powerUps && c !in next.foods
              && c == FirstFree(SpawnExclude(bodies, obstacles, pools.powerUps, next.foods), eat.specialCells)
    ensures pools.specialFood.None? && eat.specialRoll ==>
              HasFreeDraw(SpawnExclude(bodies, obstacles, pools.powerUps, next.foods), eat.specialCells)
  {
    var eatenFoodIndex := IndexOf(pools.foods, h);
    var newFoods := RemoveAt(pools.foods, eatenFoodIndex);
    var newSpecialFood := pools.specialFood;
    if pools.specialFood.None? {
      var excludePositions := SpawnExclude(bodies, obstacles, pools.powerUps, newFoods);
      if eat.specialRoll {
        FairDrawsReachFreeCell(excludePositions, eat.specialCells);
        var c := GetRandomPosition(excludePositions, eat.specialCells);
        newSpecialFood := Some(c);
      }
    }
    next := Pools(newFoods, newSpecialFood, pools.powerUps);
  }

  /** What a surviving player's move onto `h` leaves of the pools: whatever lay on `h` is
      gone, one occurrence of its plain food is removed, a power-up under the head is taken and
      any other kept, and the special food is eaten, kept, or spawned (only after a plain food,
      with the roll) on a cell off every pre-tick body, obstacle, power-up and remaining food. */
  predicate Consumed(pools: Pools, h: Position, bodies: seq<Position>, obstacles: seq<Obstacle>, eat: EatDraws,
                     rest: Pools) {
    && h !in rest.foods && rest.specialFood != Some(h) && h !in rest.powerUps
    && multiset(rest.foods) == multiset(pools.foods) - multiset{h}
    && (h in pools.powerUps ==> rest.powerUps == [])
    && (h !in pools.powerUps ==> rest.powerUps == pools.powerUps)
    && (pools.specialFood.Some? && pools.specialFood != Some(h) ==> rest.specialFood == pools.specialFood)
    && (pools.specialFood.None? && !(h in pools.foods && eat.specialRoll) ==> rest.specialFood == None)
    && (rest.specialFood.Some? && pools.specialFood.None? ==>
          var c := rest.specialFood.value;
          InGrid(c) && c !in bodies && !OnObstacle(c, obstacles) && c !in pools.powerUps && c !in rest.foods)
    && (pools.specialFood == Some(h) ==> rest.specialFood == None)
    && SpawnedFirstFree(pools, h, bodies, obstacles, eat, rest)
  }

  /** After a plain food with the roll and no special food on the grid, the special food
      goes to the first free draw, and is eaten at once when that draw is the head itself. */
  predicate SpawnedFirstFree(pools: Pools, h: Position, bodies: seq<Position>, obstacles: seq<Obstacle>,
                             eat: EatDraws, rest: Pools) {
    var exclude := SpawnExclude(bodies, obstacles, pools.powerUps, rest.foods);
    pools.specialFood.None? && h in pools.foods && eat.specialRoll ==>
      && HasFreeDraw(exclude, eat.specialCells)
      && var c := FirstFree(exclude, eat.specialCells);
         rest.specialFood == (if c == h then None else Some(c))
  }

  /** The food part of a surviving player's move onto `h`: a plain food (with the special
      food it may spawn), then the special food, possibly the one just spawned. */
  method EatFoods(level: int, h: Position, bodies: seq<Position>, obstacles: seq<Obstacle>, pools: Pools, eat: EatDraws)
    returns (rest: Pools, gained: int)
    requires PoolsOk(pools) && EatDrawsOk(eat)
    requires |bodies| + |obstacles| + PoolSize(pools) + 1 < GRID_CELLS
    ensures PoolsOk(rest) && PoolSize(rest) <= PoolSize(pools) && rest.powerUps == pools.powerUps
    ensures gained == (if h in pools.foods then CalculateScore(FOOD_POINTS, level, false) else 0)
                      + (if AteSpecial(pools, rest, h, eat) then CalculateScore(SPECIAL_FOOD_POINTS, level, false) else 0)
    ensures h !in rest.foods && rest.specialFood != Some(h)
    ensures multiset(rest.foods) == multiset(pools.foods) - multiset{h}
    ensures pools.specialFood.Some? && pools.specialFood != Some(h) ==> rest.specialFood == pools.specialFood
    ensures pools.specialFood.None? && !(h in pools.foods && eat.specialRoll) ==> rest.specialFood == None
    ensures rest.specialFood.Some? && pools.specialFood.None? ==>
              var c := rest.specialFood.value;
              InGrid(c) && c !in bodies && !OnObstacle(c, obstacles) && c !in pools.powerUps && c !in rest.foods
    ensures pools.specialFood == Some(h) ==> rest.specialFood == None
    ensures SpawnedFirstFree(pools, h, bodies, obstacles, eat, rest)
  {
    rest := pools;
    gained := 0;

    if h in rest.foods {
      gained := gained + CalculateScore(FOOD_POINTS, level, false);
      rest := EatPlainFood(rest, h, bodies, obstacles, eat);
    } else {
      assert multiset(pools.foods) - multiset{h} == multiset(pools.foods);
    }

    var spawnedHere := rest.specialFood == Some(h) && pools.specialFood.None?;
    if rest.specialFood.Some? && h == rest.specialFood.value {
      gained := gained + CalculateScore(SPECIAL_FOOD_POINTS, level, false);
      rest := rest.(specialFood := None);
    }
    assert AteSpecial(pools, rest, h, eat) <==> pools.specialFood == Some(h) || spawnedHere;
  }

  /** The power-up part of a surviving player's move onto `h`: a power-up there leaves the
      grid and its kind is drawn. */
  method TakePowerUp(h: Position, powerUps: seq<Position>, eat: EatDraws)
    returns (rest: seq<Position>, activated: Option<PowerUpType>)
    requires |powerUps| <= 1 && EatDrawsOk(eat)
    ensures h in powerUps ==> rest == [] && activated == Some(POWER_UP_TYPES[eat.powerUpIndex])
    ensures h !in powerUps ==> rest == powerUps && activated == None
  {
    rest := powerUps;
    activated := None;
    var powerUpIndex := IndexOf(powerUps, h);
    if powerUpIndex != -1 {
      rest := RemoveAt(powerUps, powerUpIndex);
      activated := Some(POWER_UP_TYPES[eat.powerUpIndex]);
    }
  }

  /** The eating part of a surviving player's move onto `h`, in the source's order: a plain
      food, then the special food (possibly the one that food just spawned), then a power-up.
      Reports whether anything was eaten and the points gained. */
  method Consume(level: int, h: Position, bodies: seq<Position>, obstacles: seq<Obstacle>, pools: Pools, eat: EatDraws)
    returns (rest: Pools, ateFood: bool, gained: int, activated: Option<PowerUpType>)
    requires PoolsOk(pools) && EatDrawsOk(eat)
    requires |bodies| + |obstacles| + PoolSize(pools) + 1 < GRID_CELLS
    ensures PoolsOk(rest) && PoolSize(rest) <= PoolSize(pools)
    ensures ateFood <==> h in pools.foods || AteSpecial(pools, rest, h, eat) || h in pools.powerUps
    ensures gained == (if h in pools.foods then CalculateScore(FOOD_POINTS, level, false) else 0)
                      + (if AteSpecial(pools, rest, h, eat) then CalculateScore(SPECIAL_FOOD_POINTS, level, false) else 0)
    ensures Consumed(pools, h, bodies, obstacles, eat, rest)
    ensures h in pools.powerUps ==> activated == Some(POWER_UP_TYPES[eat.powerUpIndex])
    ensures h !in pools.powerUps ==> activated == None
  {
    rest, gained := EatFoods(level, h, bodies, obstacles, pools, eat);
    var powerUps;
    powerUps, activated := TakePowerUp(h, rest.powerUps, eat);
    rest := rest.(powerUps := powerUps);
    ateFood := h in pools.foods || AteSpecial(pools, rest, h, eat) || activated.Some?;
  }

  /** A surviving player's move onto `h`: the new head goes in front of the old body, the
      last segment is dropped exactly when nothing was eaten, the score gains 10 × level per
      plain food and 50 × level per special food (never doubled), the level goes up once the
      score reaches level × 100, and the pools are left as `Consumed` says. */
  predicate Advanced(player: PlayerSnake, h: Position, bodies: seq<Position>, obstacles: seq<Obstacle>,
                     pools: Pools, eat: EatDraws, after: PlayerSnake, rest: Pools)
    requires |player.body| >= 1
  {
    var ateSpecial := AteSpecial(pools, rest, h, eat);
    var ate := h in pools.foods || ateSpecial || h in pools.powerUps;
    var score := player.score
                 + (if h in pools.foods then CalculateScore(FOOD_POINTS, player.level, false) else 0)
                 + (if ateSpecial then CalculateScore(SPECIAL_FOOD_POINTS, player.level, false) else 0);
    && after == player.(body := if ate then [h] + player.body else [h] + player.body[..|player.body| - 1],
                        score := score,
                        level := if score >= player.level * 100 then player.level + 1 else player.level)
    && Consumed(pools, h, bodies, obstacles, eat, rest)
  }

  /** One player's step of the two-player tick, as a relation between the player and the pools
      before and after it: a dead player does nothing, a living one that collides dies and
      eats nothing, and any other advances onto its next cell. */
  predicate Stepped(player: PlayerSnake, other: PlayerSnake, obstacles: seq<Obstacle>, bodies: seq<Position>,
                    pools: Pools, eat: EatDraws, after: PlayerSnake, rest: Pools)
    requires |player.body| >= 1
  {
    if !player.isAlive then after == player && rest == pools
    else if Collides(player, other, obstacles) then after == player.(isAlive := false) && rest == pools
    else Advanced(player, PlayerHead(player), bodies, obstacles, pools, eat, after, rest)
  }

  /** The part of a player's step after the collision checks: eat at `h`, trim, level up. */
  method Advance(player: PlayerSnake, h: Position, bodies: seq<Position>, obstacles: seq<Obstacle>,
                 pools: Pools, eat: EatDraws)
    returns (after: PlayerSnake, rest: Pools, activated: Option<PowerUpType>)
    requires |player.body| >= 1 && PoolsOk(pools) && EatDrawsOk(eat)
    requires |bodies| + |obstacles| + PoolSize(pools) + 1 < GRID_CELLS
    ensures PoolsOk(rest) && PoolSize(rest) <= PoolSize(pools) && |after.body| >= 1
    ensures forall c :: c in rest.foods ==> c in pools.foods
    ensures Advanced(player, h, bodies, obstacles, pools, eat, after, rest)
    ensures activated.Some? <==> h in pools.powerUps
    ensures activated.Some? ==> activated == Some(POWER_UP_TYPES[eat.powerUpIndex])
  {
    var newBody := [h] + player.body;
    var ateFood, gained;
    rest, ateFood, gained, activated := Consume(player.level, h, bodies, obstacles, pools, eat);
    assert forall c :: c in rest.foods ==> c in pools.foods by {
      assert forall c :: c in rest.foods ==> c in multiset(rest.foods);
    }
    var newScore := player.score + gained;
    var newLevel := player.level;

    if !ateFood {
      newBody := newBody[..|newBody| - 1];
      assert newBody == [h] + player.body[..|player.body| - 1];
    }

    if newScore >= newLevel * 100 {
      newLevel := newLevel + 1;
    }

    after := player.(body := newBody, score := newScore, level := newLevel);
  }

  /** One player's step of the two-player tick, given the other player's pre-tick snake,
      every pre-tick body and the pools left by the player before it. Returns the moved
      player, the pools it leaves and the power-up kind it activates, if any. */
  method MovePlayer(player: PlayerSnake, other: PlayerSnake, obstacles: seq<Obstacle>, bodies: seq<Position>,
                    pools: Pools, eat: EatDraws)
    returns (after: PlayerSnake, rest: Pools, activated: Option<PowerUpType>)
    requires |player.body| >= 1 && PoolsOk(pools) && EatDrawsOk(eat)
    requires |bodies| + |obstacles| + PoolSize(pools) + 1 < GRID_CELLS
    ensures PoolsOk(rest) && PoolSize(rest) <= PoolSize(pools) && |after.body| >= 1
    ensures forall c :: c in rest.foods ==> c in pools.foods
    ensures Stepped(player, other, obstacles, bodies, pools, eat, after, rest)
    // a power-up is activated exactly when a survivor's head lands on one
    ensures activated.Some? <==>
              player.isAlive && !Collides(player, other, obstacles) && PlayerHead(player) in pools.powerUps
    ensures activated.Some? ==> activated == Some(POWER_UP_TYPES[eat.powerUpIndex])
  {
    if !player.isAlive {
      return player, pools, None;
    }

    var head := player.body[0];
    var newHead := GetNextPosition(head, player.direction);

    if newHead.x < 0 || newHead.x >= GRID_SIZE || newHead.y < 0 || newHead.y >= GRID_SIZE {
      return player.(isAlive := false), pools, None;
    }
    if OnObstacle(newHead, obstacles) {
      return player.(isAlive := false), pools, None;
    }
    if other.isAlive && newHead in other.body {
      return player.(isAlive := false), pools, None;
    }

    after, rest, activated := Advance(player, newHead, bodies, obstacles, pools, eat);
  }

  /** `foods` with each of `cells` appended unless already present, in order: how the bodies
      of fallen players become food. */
  function Absorb(foods: seq<Position>, cells: seq<Position>): (r: seq<Position>)
    ensures |foods| <= |r| <= |foods| + |cells|
    decreases |cells|
  {
    if cells == [] then foods
    else Absorb(if cells[0] in foods then foods else foods + [cells[0]], cells[1..])
  }

  /** Absorbing keeps the old foods as a prefix, adds exactly the cells, and adds no cell
      twice. */
  lemma {:induction false} AbsorbSpec(foods: seq<Position>, cells: seq<Position>)
    ensures |Absorb(foods, cells)| >= |foods| && Absorb(foods, cells)[..|foods|] == foods
    ensures forall c :: c in Absorb(foods, cells) <==> c in foods || c in cells
    ensures Distinct(foods) ==> Distinct(Absorb(foods, cells))
    decreases |cells|
  {
    if cells != [] {
      var step := if cells[0] in foods then foods else foods + [cells[0]];
      AbsorbSpec(step, cells[1..]);
      assert step[..|foods|] == foods;
      assert Absorb(foods, cells)[..|foods|] == Absorb(foods, cells)[..|step|][..|foods|];
      assert forall c :: c in cells <==> c == cells[0] || c in cells[1..] by {
        assert cells == [cells[0]] + cells[1..];
      }
      if Distinct(foods) {
        assert Distinct(step);
      }
    }
  }

  /** The forEach that pushes every body cell not already among the foods. */
  method AddCellsAsFood(foods: seq<Position>, cells: seq<Position>) returns (r: seq<Position>)
    ensures r == Absorb(foods, cells)
  {
    r := foods;
    var i := 0;
    while i < |cells|
      invariant 0 <= i <= |cells|
      invariant Absorb(r, cells[i..]) == Absorb(foods, cells)
    {
      assert cells[i..][1..] == cells[i + 1..];
      if !(cells[i] in r) {
        r := r + [cells[i]];
      }
      i := i + 1;
    }
  }

  /** The pools a state holds. */
  function PoolsOf(s: GameState): Pools {
    Pools(s.foods, s.specialFood, s.powerUps)
  }

  /** The power-up kind a player's step activates: the drawn kind exactly when a survivor's
      head lands on a power-up. */
  function Activation(player: PlayerSnake, other: PlayerSnake, obstacles: seq<Obstacle>, pools: Pools,
                      eat: EatDraws): (r: Option<PowerUpType>)
    requires |player.body| >= 1 && EatDrawsOk(eat)
    ensures r.Some? <==> player.isAlive && !Collides(player, other, obstacles) && PlayerHead(player) in pools.powerUps
  {
    if player.isAlive && !Collides(player, other, obstacles) && PlayerHead(player) in pools.powerUps
    then Some(POWER_UP_TYPES[eat.powerUpIndex])
    else None
  }

  /** The cells a player leaves as food: its pre-tick body when it died this tick. */
  function Fallen(before: PlayerSnake, after: PlayerSnake): seq<Position> {
    if before.isAlive && !after.isAlive then before.body else []
  }

  /** The map over the players: player 1 moves first, then player 2 eats from what player 1
      left; both are judged against the pre-tick snakes. */
  method MoveBoth(prev: GameState, d: TickDraws)
    returns (a1: PlayerSnake, a2: PlayerSnake, rest: Pools, act1: Option<PowerUpType>, act2: Option<PowerUpType>,
             ghost mid: Pools)
    requires prev.gameMode == Multi && ValidState(prev) && TickDrawsOk(d) && HasRoom(prev)
    // player 1 steps on the pre-tick pools, player 2 on what player 1 left (`mid`)
    ensures Stepped(prev.players[0], prev.players[1], prev.obstacles, PlayerBodies(prev.players), PoolsOf(prev),
                    d.eat1, a1, mid)
    ensures Stepped(prev.players[1], prev.players[0], prev.obstacles, PlayerBodies(prev.players), mid, d.eat2, a2, rest)
    ensures act1 == Activation(prev.players[0], prev.players[1], prev.obstacles, PoolsOf(prev), d.eat1)
    ensures act2 == Activation(prev.players[1], prev.players[0], prev.obstacles, mid, d.eat2)
    ensures a1 == prev.players[0].(isAlive := a1.isAlive, body := a1.body, score := a1.score, level := a1.level)
    ensures a2 == prev.players[1].(isAlive := a2.isAlive, body := a2.body, score := a2.score, level := a2.level)
    ensures |a1.body| >= 1 && |a2.body| >= 1 && PoolsOk(rest)
    ensures !prev.players[0].isAlive ==> a1 == prev.players[0]
    ensures !prev.players[1].isAlive ==> a2 == prev.players[1]
    ensures a1.isAlive ==> prev.players[0].isAlive
    ensures a2.isAlive ==> prev.players[1].isAlive
    ensures prev.players[0].isAlive ==> (a1.isAlive <==> !Collides(prev.players[0], prev.players[1], prev.obstacles))
    ensures prev.players[1].isAlive ==> (a2.isAlive <==> !Collides(prev.players[1], prev.players[0], prev.obstacles))
    ensures a1.isAlive && a2.isAlive && PlayerHead(prev.players[0]) == PlayerHead(prev.players[1]) ==>
              a2.score == prev.players[1].score && |a2.body| == |prev.players[1].body|
    ensures forall c :: c in rest.foods ==> c in prev.foods
    ensures prev.powerUps == [] ==> rest.powerUps == [] && act1 == None && act2 == None
  {
    var p1 := prev.players[0];
    var p2 := prev.players[1];
    PlayerBodiesOfTwo(prev.players);
    var bodies := PlayerBodies(prev.players);
    var pools := Pools(prev.foods, prev.specialFood, prev.powerUps);
    var rest1;
    a1, rest1, act1 := MovePlayer(p1, p2, prev.obstacles, bodies, pools, d.eat1);
    a2, rest, act2 := MovePlayer(p2, p1, prev.obstacles, bodies, rest1, d.eat2);
    mid := rest1;
  }

  /** The pre-tick bodies of the players that died this tick, player 1 first, become food. */
  method BuryFallen(p1: PlayerSnake, a1: PlayerSnake, p2: PlayerSnake, a2: PlayerSnake, foods: seq<Position>)
    returns (newFoods: seq<Position>)
    ensures newFoods == Absorb(Absorb(foods, Fallen(p1, a1)), Fallen(p2, a2))
    ensures Distinct(foods) ==> Distinct(newFoods)
    ensures forall c :: c in newFoods <==> c in foods || c in Fallen(p1, a1) || c in Fallen(p2, a2)
  {
    newFoods := AddCellsAsFood(foods, Fallen(p1, a1));
    AbsorbSpec(foods, Fallen(p1, a1));
    AbsorbSpec(newFoods, Fallen(p2, a2));
    newFoods := AddCellsAsFood(newFoods, Fallen(p2, a2));
  }

  /** What a playing two-player tick produces from `prev`: player 1 steps on the pre-tick pools
      and player 2 on what player 1 left; the fallen players' pre-tick bodies are absorbed into
      the remaining foods; the game ends with the best score once both are dead; the power-up
      taken last in call order is the one active afterwards; nothing else changes. */
  ghost predicate MultiOutcome(prev: GameState, d: TickDraws, next: GameState)
    requires prev.gameMode == Multi && ValidState(prev) && TickDrawsOk(d)
  {
    var p1 := prev.players[0];
    var p2 := prev.players[1];
    var bodies := PlayerBodies(prev.players);
    && |next.players| == 2
    && next == prev.(players := next.players, foods := next.foods, specialFood := next.specialFood,
                     powerUps := next.powerUps, score := next.score, gameStatus := next.gameStatus,
                     powerUpActive := next.powerUpActive, powerUpTimer := next.powerUpTimer)
    && (exists mid: Pools, rest: Pools ::
          && Stepped(p1, p2, prev.obstacles, bodies, PoolsOf(prev), d.eat1, next.players[0], mid)
          && Stepped(p2, p1, prev.obstacles, bodies, mid, d.eat2, next.players[1], rest)
          && next.foods == Absorb(Absorb(rest.foods, Fallen(p1, next.players[0])), Fallen(p2, next.players[1]))
          && next.specialFood == rest.specialFood && next.powerUps == rest.powerUps
          && var act1 := Activation(p1, p2, prev.obstacles, PoolsOf(prev), d.eat1);
             var act2 := Activation(p2, p1, prev.obstacles, mid, d.eat2);
             var last := if act2.Some? then act2 else act1;
             (last.Some? ==> next.powerUpActive == last && next.powerUpTimer == POWER_UP_DURATION)
             && (last.None? ==> next.powerUpActive == prev.powerUpActive && next.powerUpTimer == prev.powerUpTimer))
    && (next.gameStatus == GameOver <==> !next.players[0].isAlive && !next.players[1].isAlive)
    && (next.gameStatus == GameOver ==> next.score == Max(next.players[0].score, next.players[1].score))
    && (next.gameStatus != GameOver ==> next.gameStatus == Playing && next.score == prev.score)
  }

  /** When both players survive a tick, the plain food under each new head is eaten once and
      no food is added. */
  lemma BothSurviveFoods(prev: GameState, d: TickDraws, next: GameState)
    requires prev.gameMode == Multi && ValidState(prev) && TickDrawsOk(d)
    requires MultiOutcome(prev, d, next) && next.players[0].isAlive && next.players[1].isAlive
    ensures multiset(next.foods)
            == multiset(prev.foods) - multiset{PlayerHead(prev.players[0])} - multiset{PlayerHead(prev.players[1])}
  {
  }

  /** moveMultiPlayerSnakes, for a playing two-player game. */
  method MoveMulti(prev: GameState, d: TickDraws) returns (next: GameState)
    requires prev.gameMode == Multi && prev.gameStatus == Playing && ValidState(prev)
    requires TickDrawsOk(d) && HasRoom(prev)
    ensures ValidState(next) && next.gameMode == Multi
    ensures MultiOutcome(prev, d, next)
    // a dead player stays as it was; nobody comes back to life
    ensures forall i :: 0 <= i < 2 && !prev.players[i].isAlive ==> next.players[i] == prev.players[i]
    ensures forall i :: 0 <= i < 2 && next.players[i].isAlive ==> prev.players[i].isAlive
    // a living player dies exactly when it collides, judged against the pre-tick snakes
    ensures prev.players[0].isAlive ==>
              (next.players[0].isAlive <==> !Collides(prev.players[0], prev.players[1], prev.obstacles))
    ensures prev.players[1].isAlive ==>
              (next.players[1].isAlive <==> !Collides(prev.players[1], prev.players[0], prev.obstacles))
    // two heads on one cell: player 1 consumes everything there, player 2 gains nothing
    ensures next.players[0].isAlive && next.players[1].isAlive
            && PlayerHead(prev.players[0]) == PlayerHead(prev.players[1]) ==>
              next.players[1].score == prev.players[1].score
              && |next.players[1].body| == |prev.players[1].body|
    // the pre-tick body of a player who died this tick is food now, with no cell twice
    ensures forall i :: 0 <= i < 2 && prev.players[i].isAlive && !next.players[i].isAlive ==>
              forall c :: c in prev.players[i].body ==> c in next.foods
    ensures forall c :: c in next.foods ==>
              c in prev.foods
              || exists i :: 0 <= i < 2 && prev.players[i].isAlive && !next.players[i].isAlive && c in prev.players[i].body
    // without a power-up on the grid, the active power-up is untouched
    ensures prev.powerUps == [] ==>
              next.powerUps == [] && next.powerUpActive == prev.powerUpActive && next.powerUpTimer == prev.powerUpTimer
  {
    var a1, a2, rest, act1, act2, mid := MoveBoth(prev, d);
    var newFoods := BuryFallen(prev.players[0], a1, prev.players[1], a2, rest.foods);

    next := prev.(players := [a1, a2], foods := newFoods, specialFood := rest.specialFood, powerUps := rest.powerUps);
    if !a1.isAlive && !a2.isAlive {
      next := next.(score := Max(a1.score, a2.score), gameStatus := GameOver);
    }

    // the activations queued during the update land on top of its result, in order
    if act1.Some? {
      next := ActivatePowerUp(next, act1.value);
    }
    if act2.Some? {
      next := ActivatePowerUp(next, act2.value);
    }
  }
}
