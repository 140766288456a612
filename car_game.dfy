/** CarGame as objects: the player and the obstacles are Car objects whose
    fields the game updates in place, and the game's fields are updated step
    by step as in CarGame.java. Every method is proved to take the game from
    State() to the value the matching function of CarGameRules or
    CarGameSave gives. */
module CarGame {
  import opened JavaText
  import opened Geometry
  import opened JavaMath
  import opened CarGameRules
  import opened CarGameSave
  import HighScoreFile

  class Car {
    var x: int
    var y: int
    var dx: int

    constructor (x: int, y: int)
      ensures this.x == x && this.y == y && dx == 0
    {
      this.x := x;
      this.y := y;
      dx := 0;
    }

    /** Car.move: x moves by dx and is kept within [0, 430]. */
    method Move()
      modifies this`x
      ensures x == ClampX(old(x) + dx)
    {
      x := x + dx;
      if x < 0 {
        x := 0;
      }
      if x > MaxCarX {
        x := MaxCarX;
      }
    }

    /** Car.getBounds: the car's 40x100 box at its position. */
    function GetBounds(): Rect
      reads this
    {
      CarBounds(Pos(x, y))
    }
  }

  ghost predicate Distinct(cars: seq<Car>) {
    forall i, j :: 0 <= i < j < |cars| ==> cars[i] != cars[j]
  }

  /** Where each car of the list is, in list order. */
  ghost function Positions(cars: seq<Car>): (r: seq<Pos>)
    reads set c | c in cars
    ensures |r| == |cars|
  {
    if cars == [] then [] else [Pos(cars[0].x, cars[0].y)] + Positions(cars[1..])
  }

  /** Position k of the list is where car k is. */
  lemma {:induction false} PositionsPointwise(cars: seq<Car>)
    ensures forall k :: 0 <= k < |cars| ==> Positions(cars)[k] == Pos(cars[k].x, cars[k].y)
  {
    if cars != [] {
      PositionsPointwise(cars[1..]);
    }
  }

  /** Appending a car appends its position. */
  lemma PositionsAppend(cars: seq<Car>, car: Car)
    ensures Positions(cars + [car]) == Positions(cars) + [Pos(car.x, car.y)]
  {
    PositionsPointwise(cars);
    PositionsPointwise(cars + [car]);
    assert forall k :: 0 <= k < |cars| + 1 ==> Positions(cars + [car])[k] == (Positions(cars) + [Pos(car.x, car.y)])[k];
  }

  /** otherCars.removeIf(car -> car.y > 800) on the objects. */
  function Survivors(cars: seq<Car>): (r: seq<Car>)
    reads set c | c in cars
    ensures |r| <= |cars|
  {
    if cars == [] then []
    else (if cars[0].y > OffscreenY then [] else [cars[0]]) + Survivors(cars[1..])
  }

  /** The survivors are some of the cars, and no car survives twice. */
  lemma {:induction false} SurvivorsFacts(cars: seq<Car>)
    ensures forall c :: c in Survivors(cars) ==> c in cars
    ensures Distinct(cars) ==> Distinct(Survivors(cars))
  {
    if cars != [] {
      var tail := cars[1..];
      SurvivorsFacts(tail);
      var head := if cars[0].y > OffscreenY then [] else [cars[0]];
      var r := Survivors(cars);
      assert r == head + Survivors(tail);
      assert cars == [cars[0]] + tail;
      if Distinct(cars) {
        assert Distinct(tail) && cars[0] !in tail;
        forall i, j | 0 <= i < j < |r|
          ensures r[i] != r[j]
        {
          if head != [] && i == 0 {
            assert r[j] == Survivors(tail)[j - 1];
          } else if head != [] {
            assert r[i] == Survivors(tail)[i - 1] && r[j] == Survivors(tail)[j - 1];
          }
        }
      }
    }
  }

  /** Removing the objects removes exactly the positions Prune removes. */
  lemma {:induction false} SurvivorsPositions(cars: seq<Car>)
    ensures Positions(Survivors(cars)) == Prune(Positions(cars))
  {
    if cars != [] {
      var tail := cars[1..];
      var rest := Survivors(tail);
      SurvivorsPositions(tail);
      var ps := Positions(cars);
      assert ps == [Pos(cars[0].x, cars[0].y)] + Positions(tail);
      assert ps[0] == Pos(cars[0].x, cars[0].y) && ps[1..] == Positions(tail);
      if cars[0].y > OffscreenY {
        assert Survivors(cars) == rest;
      } else {
        assert Survivors(cars) == [cars[0]] + rest;
        assert ([cars[0]] + rest)[1..] == rest;
        assert Positions([cars[0]] + rest) == [Pos(cars[0].x, cars[0].y)] + Positions(rest);
      }
    }
  }

  class CarGame {
    var playerCar: Car
    var otherCars: seq<Car>
    var score: int
    var speed: int
    var lastSpeedIncreaseTime: int
    var lastCarSpawnTime: int
    var spawnInterval: int
    var isPaused: bool
    var highScore: int

    /** The player's dx stays 0, the player is not among the obstacles, no
        obstacle is in the list twice, and the spawn interval is one of
        1900, 1700, ..., 500. */
    ghost predicate Valid()
      reads this`playerCar, this`otherCars, this`spawnInterval, playerCar`dx
    {
      && playerCar.dx == 0
      && playerCar !in otherCars
      && Distinct(otherCars)
      && SpawnIntervalReachable(spawnInterval)
    }

    ghost function State(): GameState
      reads this, playerCar, set c | c in otherCars
    {
      GameState(Pos(playerCar.x, playerCar.y), Positions(otherCars), score, speed, spawnInterval,
        lastSpeedIncreaseTime, lastCarSpawnTime, isPaused, highScore)
    }

    /** The constructor's game state, with `now` for System.currentTimeMillis()
        and the high-score file's lines (None when it cannot be read). */
    constructor (now: int, highScoreFile: Option<seq<string>>)
      ensures Valid() && fresh(playerCar)
      ensures State() == GameState(Pos(HomeLane, PlayerStartY), [], 0, InitialSpeed, InitialSpawnInterval,
        now, now, false, HighScoreFile.LoadHighScore(0, highScoreFile))
    {
      playerCar := new Car(Lanes[1], PlayerStartY);
      otherCars := [];
      score := 0;
      speed := InitialSpeed;
      spawnInterval := InitialSpawnInterval;
      lastSpeedIncreaseTime := now;
      lastCarSpawnTime := now;
      isPaused := false;
      highScore := 0;
      new;
      LoadHighScore(highScoreFile);
    }

    /** saveHighScore: the text written to the high-score file. */
    method SaveHighScore() returns (text: seq<string>)
      ensures text == HighScoreFile.HighScoreText(highScore)
      ensures HighScoreFile.LoadHighScore(0, Some(text)) == (if InInt32(highScore) then highScore else 0)
    {
      text := [IntToString(highScore)];
      ParseIntOfIntToString(highScore);
    }

    /** loadHighScore, given the high-score file's lines (None when it cannot be read). */
    method LoadHighScore(file: Option<seq<string>>)
      requires Valid()
      modifies this`highScore
      ensures Valid()
      ensures State() == old(State()).(highScore := HighScoreFile.LoadHighScore(old(highScore), file))
    {
      if file.Some? && |file.value| > 0 && file.value[0] != "" {
        var parsed := ParseInt(file.value[0]);
        if parsed.Some? {
          highScore := parsed.value;
        }
      }
    }

    /** actionPerformed, fired by the timer at `now`; `lane` is the index the
        random generator draws when a car spawns and `response` the game-over
        dialog's answer. `exited` says that "Quit" ended the process and
        `written` is what saveHighScore wrote, if it ran. */
    method ActionPerformed(now: int, lane: nat, response: int) returns (exited: bool, written: Option<seq<string>>)
      requires Valid() && lane < |Lanes|
      modifies this, playerCar, set c | c in otherCars
      ensures Valid() && playerCar == old(playerCar)
      ensures Step(State(), exited, written) == Tick(old(State()), TickInput(now, lane, response))
    {
      exited, written := false, None;
      if isPaused {
        return;
      }
      ghost var checked := CollisionStep(Advance(State(), now, lane), now, response);
      assert Tick(State(), TickInput(now, lane, response)) ==
        if checked.exited then checked else checked.(state := checked.state.(score := checked.state.score + 1));
      AdvanceCars(now, lane);
      exited, written := CheckCollisions(now, response);
      if exited {
        return;
      }
      ghost var unscored := State();
      score := score + 1;
      assert Positions(otherCars) == unscored.obstacles;
      assert State() == unscored.(score := unscored.score + 1);
    }

    /** The part of actionPerformed before checkCollisions: the player's
        move, the difficulty step, the spawn, the descent and the pruning. */
    method AdvanceCars(now: int, lane: nat)
      requires Valid() && lane < |Lanes|
      modifies this, playerCar, set c | c in otherCars
      ensures Valid() && playerCar == old(playerCar)
      ensures State() == Advance(old(State()), now, lane)
    {
      ghost var s0 := State();
      playerCar.Move();
      ghost var moved := State();
      assert moved == s0.(player := s0.player.(x := ClampX(s0.player.x + 0)));
      IncreaseDifficulty(now);
      SpawnIfDue(now, lane);
      ghost var spawned := State();
      assert spawned == SpawnStep(DifficultyStep(moved, now), now, lane);
      MoveCarsDown();
      RemoveOffscreenCars();
    }

    /** The block of actionPerformed that raises the speed and shortens the
        spawn interval every 30 seconds. */
    method IncreaseDifficulty(now: int)
      requires Valid()
      modifies this`speed, this`spawnInterval, this`lastSpeedIncreaseTime
      ensures Valid()
      ensures State() == DifficultyStep(old(State()), now)
    {
      if now - lastSpeedIncreaseTime >= DifficultyPeriod {
        speed := speed + SpeedStep;
        spawnInterval := Max(spawnInterval - SpawnIntervalStep, MinSpawnInterval);
        lastSpeedIncreaseTime := now;
      }
    }

    /** The block of actionPerformed that spawns a car once the spawn
        interval has passed. */
    method SpawnIfDue(now: int, lane: nat)
      requires Valid() && lane < |Lanes|
      modifies this`otherCars, this`lastCarSpawnTime
      ensures Valid()
      ensures forall c :: c in otherCars ==> c in old(otherCars) || fresh(c)
      ensures State() == SpawnStep(old(State()), now, lane)
    {
      if now - lastCarSpawnTime >= spawnInterval {
        SpawnCars(lane);
        lastCarSpawnTime := now;
      }
    }

    /** otherCars.removeIf(car -> car.y > 800). */
    method RemoveOffscreenCars()
      requires Valid()
      modifies this`otherCars
      ensures Valid()
      ensures forall c :: c in otherCars ==> c in old(otherCars)
      ensures State() == old(State()).(obstacles := Prune(old(State()).obstacles))
    {
      ghost var before := State();
      var kept := Survivors(otherCars);
      SurvivorsPositions(otherCars);
      SurvivorsFacts(otherCars);
      ghost var pruned := Positions(kept);
      assert pruned == Prune(before.obstacles);
      assert Distinct(kept) && playerCar !in kept;
      otherCars := kept;
      assert Positions(otherCars) == pruned;
      assert State() == before.(obstacles := pruned);
    }

    /** The loop of actionPerformed that moves every obstacle down by speed. */
    method MoveCarsDown()
      requires Valid()
      modifies set c | c in otherCars
      ensures Valid()
      ensures State() == old(State()).(obstacles := Descend(old(State()).obstacles, speed))
    {
      ghost var before := Positions(otherCars);
      PositionsPointwise(otherCars);
      for i := 0 to |otherCars|
        invariant forall k :: 0 <= k < i ==> otherCars[k].x == before[k].x && otherCars[k].y == before[k].y + speed
        invariant forall k :: i <= k < |otherCars| ==> otherCars[k].x == before[k].x && otherCars[k].y == before[k].y
      {
        var car := otherCars[i];
        car.y := car.y + speed;
      }
      PositionsPointwise(otherCars);
      DescendPointwise(before, speed);
      assert forall k :: 0 <= k < |otherCars| ==> Positions(otherCars)[k] == Descend(before, speed)[k];
    }

    /** spawnCars: a new car at the top of the lane with index `lane`. */
    method SpawnCars(lane: nat)
      requires Valid() && lane < |Lanes|
      modifies this`otherCars
      ensures Valid()
      ensures |otherCars| == |old(otherCars)| + 1 && otherCars[..|old(otherCars)|] == old(otherCars)
      ensures fresh(otherCars[|old(otherCars)|])
      ensures State() == old(State()).(obstacles := old(State()).obstacles + [Pos(Lanes[lane], 0)])
    {
      var car := new Car(Lanes[lane], 0);
      otherCars := otherCars + [car];
      PositionsAppend(old(otherCars), car);
    }

    /** checkCollisions: the first obstacle in list order that overlaps the
        player ends the game; the dialog then restarts it or quits. */
    method CheckCollisions(now: int, response: int) returns (exited: bool, written: Option<seq<string>>)
      requires Valid()
      modifies this, playerCar
      ensures Valid() && playerCar == old(playerCar)
      ensures Step(State(), exited, written) == CollisionStep(old(State()), now, response)
    {
      PositionsPointwise(otherCars);
      FirstHitFacts(State().player, State().obstacles);
      exited, written := false, None;
      var i := 0;
      while i < |otherCars|
        invariant 0 <= i <= |otherCars|
        invariant unchanged(this, playerCar)
        invariant forall k :: 0 <= k < i ==> !Hits(Pos(playerCar.x, playerCar.y), Pos(otherCars[k].x, otherCars[k].y))
      {
        var car := otherCars[i];
        if Intersects(playerCar.GetBounds(), car.GetBounds()) {
          assert Hits(old(State()).player, old(State()).obstacles[i]);
          if score > highScore {
            highScore := score;
            var text := SaveHighScore();
            written := Some(text);
          }
          isPaused := true;
          if response == RestartChoice {
            RestartGame(now);
          } else {
            exited := true;
          }
          break;
        }
        i := i + 1;
      }
    }

    /** restartGame, at `now`. */
    method RestartGame(now: int)
      requires Valid()
      modifies this, playerCar
      ensures Valid() && playerCar == old(playerCar)
      ensures State() == Restarted(old(State()), now)
    {
      score := 0;
      speed := InitialSpeed;
      otherCars := [];
      playerCar.x := Lanes[1];
      playerCar.y := PlayerStartY;
      lastSpeedIncreaseTime := now;
      lastCarSpawnTime := now;
      isPaused := false;
    }

    method PauseGame()
      requires Valid()
      modifies this`isPaused
      ensures Valid()
      ensures State() == Paused(old(State()))
    {
      isPaused := true;
    }

    method ResumeGame()
      requires Valid()
      modifies this`isPaused
      ensures Valid()
      ensures State() == Resumed(old(State()))
    {
      isPaused := false;
    }

    /** movePlayerToLeftLane: find the player's lane among lanes 1 and 2 and
        take the one to its left. */
    method MovePlayerToLeftLane()
      requires Valid()
      modifies playerCar`x
      ensures Valid()
      ensures State() == old(State()).(player := Pos(LeftLane(old(playerCar.x)), old(playerCar.y)))
    {
      var i := 1;
      while i < |Lanes|
        invariant 1 <= i <= |Lanes|
        invariant playerCar.x == old(playerCar.x)
        invariant forall k :: 1 <= k < i ==> playerCar.x != Lanes[k]
      {
        if playerCar.x == Lanes[i] {
          playerCar.x := Lanes[i - 1];
          break;
        }
        i := i + 1;
      }
    }

    /** movePlayerToRightLane: find the player's lane among lanes 0 and 1 and
        take the one to its right. */
    method MovePlayerToRightLane()
      requires Valid()
      modifies playerCar`x
      ensures Valid()
      ensures State() == old(State()).(player := Pos(RightLane(old(playerCar.x)), old(playerCar.y)))
    {
      var i := 0;
      while i < |Lanes| - 1
        invariant 0 <= i <= |Lanes| - 1
        invariant playerCar.x == old(playerCar.x)
        invariant forall k :: 0 <= k < i ==> playerCar.x != Lanes[k]
      {
        if playerCar.x == Lanes[i] {
          playerCar.x := Lanes[i + 1];
          break;
        }
        i := i + 1;
      }
    }

    /** saveGameState: the lines written to the save file. */
    method SaveGameState() returns (lines: seq<string>)
      ensures lines == SaveText(State())
    {
      var header := [IntToString(score), IntToString(speed), IntToString(playerCar.x), IntToString(playerCar.y)];
      var body := WriteObstacles();
      lines := header + body;
    }

    /** The loop of saveGameState: one `x y` line per obstacle, in list order. */
    method WriteObstacles() returns (body: seq<string>)
      ensures body == ObstacleLines(Positions(otherCars))
    {
      ghost var obstacles := Positions(otherCars);
      PositionsPointwise(otherCars);
      body := [];
      for i := 0 to |otherCars|
        invariant body == ObstacleLines(obstacles[..i])
      {
        var car := otherCars[i];
        ghost var p := Pos(car.x, car.y);
        assert obstacles[i] == p;
        assert obstacles[..i + 1] == obstacles[..i] + [p];
        ObstacleLinesAppend(obstacles[..i], p);
        body := body + [IntToString(car.x) + " " + IntToString(car.y)];
      }
      assert obstacles[..|otherCars|] == obstacles;
    }

    /** loadGameState, given the save file's lines (None when it cannot be
        opened). Each field is assigned as soon as its line parses. */
    method LoadGameState(file: Option<seq<string>>) returns (outcome: LoadOutcome)
      requires Valid()
      modifies this, playerCar
      ensures Valid() && playerCar == old(playerCar)
      ensures LoadResult(State(), outcome) == Load(old(State()), file)
    {
      if file.None? {
        return IoFailure;
      }
      var lines := file.value;
      var n := ParseLine(lines, 0);
      if n.None? {
        return FormatFailure;
      }
      score := n.value;
      n := ParseLine(lines, 1);
      if n.None? {
        return FormatFailure;
      }
      speed := n.value;
      n := ParseLine(lines, 2);
      if n.None? {
        return FormatFailure;
      }
      playerCar.x := n.value;
      n := ParseLine(lines, 3);
      if n.None? {
        return FormatFailure;
      }
      playerCar.y := n.value;
      otherCars := [];
      outcome := ReadObstacles(lines[4..]);
    }

    /** The obstacle loop of loadGameState: one new car per line, appended in
        file order, until the lines run out or a line does not parse. */
    method ReadObstacles(lines: seq<string>) returns (outcome: LoadOutcome)
      requires Valid()
      modifies this`otherCars
      ensures Valid()
      ensures State() == old(State()).(obstacles := old(State()).obstacles + ParseObstacles(lines).cars)
      ensures outcome == ParseObstacles(lines).outcome
    {
      ghost var before := State();
      ghost var done: seq<Pos> := [];
      var i := 0;
      while i < |lines|
        invariant i <= |lines|
        invariant ParseObstacles(lines) == Resume(done, ParseObstacles(lines[i..]))
        invariant State() == before.(obstacles := before.obstacles + done)
        invariant Valid()
        invariant forall c :: c in otherCars ==> c in old(otherCars) || fresh(c)
      {
        ParseObstaclesResume(lines, i, done);
        var parsed := ReadObstacleLine(lines[i]);
        if parsed.Failed? {
          return parsed.outcome;
        }
        AppendAssoc(before.obstacles, done, [parsed.pos]);
        done := done + [parsed.pos];
        i := i + 1;
      }
      ParseObstaclesFinished(lines, done);
      return Loaded;
    }

    /** The body of the obstacle loop of loadGameState: split the line at
        spaces, parse x and y, and append a new car. */
    method ReadObstacleLine(line: string) returns (r: LineResult)
      requires Valid()
      modifies this`otherCars
      ensures Valid()
      ensures r == ParseObstacleLine(line)
      ensures forall c :: c in otherCars ==> c in old(otherCars) || fresh(c)
      ensures r.Failed? ==> State() == old(State())
      ensures r.Parsed? ==> State() == old(State()).(obstacles := old(State()).obstacles + [r.pos])
    {
      var parts := Split(line);
      if |parts| == 0 {
        return Failed(IndexFailure);
      }
      var x := ParseInt(parts[0]);
      if x.None? {
        return Failed(FormatFailure);
      }
      if |parts| < 2 {
        return Failed(IndexFailure);
      }
      var y := ParseInt(parts[1]);
      if y.None? {
        return Failed(FormatFailure);
      }
      var car := new Car(x.value, y.value);
      otherCars := otherCars + [car];
      PositionsAppend(old(otherCars), car);
      r := Parsed(Pos(x.value, y.value));
      assert State() == old(State()).(obstacles := old(State()).obstacles + [r.pos]);
    }
  }
}
