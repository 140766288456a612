/** The lane-driving game as values: the state a tick of CarGame reads and
    writes, and one function per stage of the tick, in the order
    actionPerformed runs them. The class in module CarGame is proved to
    follow these functions; the lemmas here say what they promise. */
module CarGameRules {
  import opened JavaText
  import opened Geometry
  import opened JavaMath
  import HighScoreFile

  const Lanes: seq<int> := [80, 215, 350]
  const HomeLane: int := 215
  const PlayerStartY: int := 600
  const CarWidth: int := 40
  const CarHeight: int := 100
  const MaxCarX: int := 430
  const InitialSpeed: int := 5
  const InitialSpawnInterval: int := 1900
  const DifficultyPeriod: int := 30000
  const SpeedStep: int := 2
  const SpawnIntervalStep: int := 200
  const MinSpawnInterval: int := 500
  const OffscreenY: int := 800
  /** The index of "Restart" among the game-over dialog's options. */
  const RestartChoice: int := 0

  /** Where a car's top-left corner is. */
  datatype Pos = Pos(x: int, y: int)

  /** The fields of CarGame a tick works on; the obstacles in list order. */
  datatype GameState = GameState(
    player: Pos,
    obstacles: seq<Pos>,
    score: int,
    speed: int,
    spawnInterval: int,
    lastSpeedIncreaseTime: int,
    lastCarSpawnTime: int,
    isPaused: bool,
    highScore: int)

  /** The result of one tick: the new state, whether "Quit" ended the process,
      and the lines saveHighScore wrote to the high-score file, if it ran. */
  datatype Step = Step(state: GameState, exited: bool, written: Option<seq<string>>)

  /** The moment the tick was fired, the random lane index and the dialog's answer. */
  datatype TickInput = TickInput(now: int, lane: nat, response: int)

  /** The spawn-interval values a running game can reach: 1900, 1700, ..., 500. */
  predicate SpawnIntervalReachable(interval: int) {
    MinSpawnInterval <= interval <= InitialSpawnInterval && (interval - MinSpawnInterval) % SpawnIntervalStep == 0
  }

  // ---------------------------------------------------------------- cars

  /** Car.getBounds. */
  function CarBounds(p: Pos): Rect {
    Rect(p.x, p.y, CarWidth, CarHeight)
  }

  predicate Hits(player: Pos, car: Pos) {
    Intersects(CarBounds(player), CarBounds(car))
  }

  /** Two cars collide exactly when their corners are less than a car's
      width apart across and less than a car's height apart along the road. */
  lemma HitsIffCloserThanACar(p: Pos, q: Pos)
    ensures Hits(p, q) <==> (q.x - CarWidth < p.x < q.x + CarWidth && q.y - CarHeight < p.y < q.y + CarHeight)
  {
  }

  /** Two cars in different lanes never collide, whatever their heights. */
  lemma DifferentLanesNeverHit(p: Pos, q: Pos)
    requires p.x in Lanes && q.x in Lanes && p.x != q.x
    ensures !Hits(p, q)
  {
  }

  lemma HitExamples()
    ensures Hits(Pos(215, 600), Pos(215, 650))
    ensures !Hits(Pos(215, 600), Pos(350, 650))
    ensures !Hits(Pos(215, 600), Pos(215, 700))
    ensures !Hits(Pos(215, 600), Pos(255, 600))
    ensures Hits(Pos(215, 600), Pos(254, 501))
  {
  }

  /** Car.move: x moves by dx and is kept within [0, 430]. */
  function ClampX(x: int): (r: int)
    ensures 0 <= r <= MaxCarX
    ensures 0 <= x <= MaxCarX ==> r == x
    ensures x < 0 ==> r == 0
    ensures x > MaxCarX ==> r == MaxCarX
    ensures r == Min(Max(x, 0), MaxCarX)
  {
    if x < 0 then 0 else if x > MaxCarX then MaxCarX else x
  }

  /** Car.move with dx == 0 leaves a car in a lane where it is. */
  lemma MoveKeepsLane(x: int)
    requires x in Lanes
    ensures ClampX(x + 0) == x
  {
  }

  // ---------------------------------------------------------------- lanes

  /** Where movePlayerToLeftLane puts a car at x. */
  function LeftLane(x: int): int {
    if x == Lanes[1] then Lanes[0] else if x == Lanes[2] then Lanes[1] else x
  }

  /** Where movePlayerToRightLane puts a car at x. */
  function RightLane(x: int): int {
    if x == Lanes[0] then Lanes[1] else if x == Lanes[1] then Lanes[2] else x
  }

  /** Left and right move to the neighbouring lane, stop at the end lanes,
      and leave an x that is not a lane alone. */
  lemma LaneMoves(x: int)
    ensures forall i :: 1 <= i < |Lanes| ==> LeftLane(Lanes[i]) == Lanes[i - 1]
    ensures forall i :: 0 <= i < |Lanes| - 1 ==> RightLane(Lanes[i]) == Lanes[i + 1]
    ensures LeftLane(Lanes[0]) == Lanes[0] && RightLane(Lanes[|Lanes| - 1]) == Lanes[|Lanes| - 1]
    ensures x !in Lanes ==> LeftLane(x) == x && RightLane(x) == x
    ensures x in Lanes <==> LeftLane(x) in Lanes
    ensures x in Lanes <==> RightLane(x) in Lanes
  {
  }

  /** Right undoes left everywhere but the leftmost lane, and left undoes right
      everywhere but the rightmost. */
  lemma LaneMovesUndoEachOther(x: int)
    ensures x != Lanes[0] ==> RightLane(LeftLane(x)) == x
    ensures x != Lanes[|Lanes| - 1] ==> LeftLane(RightLane(x)) == x
  {
  }

  // ---------------------------------------------------------------- the stages of a tick

  /** Every 30 000 ms: speed +2, spawn interval -200 but not below 500. */
  function DifficultyStep(s: GameState, now: int): GameState {
    if now - s.lastSpeedIncreaseTime >= DifficultyPeriod then
      s.(speed := s.speed + SpeedStep,
         spawnInterval := if s.spawnInterval - SpawnIntervalStep > MinSpawnInterval then s.spawnInterval - SpawnIntervalStep else MinSpawnInterval,
         lastSpeedIncreaseTime := now)
    else s
  }

  lemma DifficultyStepFacts(s: GameState, now: int)
    ensures var r := DifficultyStep(s, now);
      && (now - s.lastSpeedIncreaseTime >= DifficultyPeriod ==>
            && r.speed == s.speed + SpeedStep
            && r.spawnInterval == Max(s.spawnInterval - SpawnIntervalStep, MinSpawnInterval)
            && r.lastSpeedIncreaseTime == now)
      && (now - s.lastSpeedIncreaseTime < DifficultyPeriod ==> r == s)
      && r.(speed := s.speed, spawnInterval := s.spawnInterval, lastSpeedIncreaseTime := s.lastSpeedIncreaseTime) == s
      && r.speed >= s.speed
      && (s.spawnInterval >= MinSpawnInterval ==> MinSpawnInterval <= r.spawnInterval <= s.spawnInterval)
      && (SpawnIntervalReachable(s.spawnInterval) ==> SpawnIntervalReachable(r.spawnInterval))
  {
  }

  /** A second difficulty step at the same moment changes nothing. */
  lemma DifficultyStepIdempotent(s: GameState, now: int)
    ensures DifficultyStep(DifficultyStep(s, now), now) == DifficultyStep(s, now)
  {
  }

  /** Spawn a car at the top of lane `lane` once the spawn interval has passed. */
  function SpawnStep(s: GameState, now: int, lane: nat): GameState
    requires lane < |Lanes|
  {
    if now - s.lastCarSpawnTime >= s.spawnInterval then
      s.(obstacles := s.obstacles + [Pos(Lanes[lane], 0)], lastCarSpawnTime := now)
    else s
  }

  lemma SpawnStepFacts(s: GameState, now: int, lane: nat)
    requires lane < |Lanes|
    ensures var r := SpawnStep(s, now, lane);
      && (now - s.lastCarSpawnTime >= s.spawnInterval ==>
            && |r.obstacles| == |s.obstacles| + 1
            && r.obstacles[..|s.obstacles|] == s.obstacles
            && r.obstacles[|s.obstacles|].x in Lanes
            && r.obstacles[|s.obstacles|].y == 0
            && r.lastCarSpawnTime == now)
      && (now - s.lastCarSpawnTime < s.spawnInterval ==> r == s)
      && r.(obstacles := s.obstacles, lastCarSpawnTime := s.lastCarSpawnTime) == s
  {
    var r := SpawnStep(s, now, lane);
    if now - s.lastCarSpawnTime >= s.spawnInterval {
      assert r.obstacles[..|s.obstacles|] == s.obstacles;
    }
  }

  /** Every obstacle moves down by dy. */
  function Descend(obstacles: seq<Pos>, dy: int): (r: seq<Pos>)
    ensures |r| == |obstacles|
  {
    if obstacles == [] then [] else [Pos(obstacles[0].x, obstacles[0].y + dy)] + Descend(obstacles[1..], dy)
  }

  /** Each obstacle keeps its lane and its place in the list and is dy further down. */
  lemma {:induction false} DescendPointwise(obstacles: seq<Pos>, dy: int)
    ensures forall k :: 0 <= k < |obstacles| ==>
      Descend(obstacles, dy)[k] == Pos(obstacles[k].x, obstacles[k].y + dy)
  {
    if obstacles != [] {
      var tail := obstacles[1..];
      DescendPointwise(tail, dy);
      var r := Descend(obstacles, dy);
      assert r == [Pos(obstacles[0].x, obstacles[0].y + dy)] + Descend(tail, dy);
      forall k | 1 <= k < |obstacles|
        ensures r[k] == Pos(obstacles[k].x, obstacles[k].y + dy)
      {
        assert r[k] == Descend(tail, dy)[k - 1] && obstacles[k] == tail[k - 1];
      }
    }
  }

  /** otherCars.removeIf(car -> car.y > 800). */
  function Prune(obstacles: seq<Pos>): (r: seq<Pos>)
    ensures |r| <= |obstacles|
  {
    if obstacles == [] then []
    else (if obstacles[0].y > OffscreenY then [] else [obstacles[0]]) + Prune(obstacles[1..])
  }

  /** What survives pruning is exactly the obstacles at most 800 down. */
  lemma {:induction false} PruneFacts(obstacles: seq<Pos>)
    ensures forall k :: 0 <= k < |Prune(obstacles)| ==> Prune(obstacles)[k].y <= OffscreenY
    ensures forall p :: p in Prune(obstacles) <==> p in obstacles && p.y <= OffscreenY
  {
    if obstacles != [] {
      var tail := obstacles[1..];
      PruneFacts(tail);
      var head := if obstacles[0].y > OffscreenY then [] else [obstacles[0]];
      assert Prune(obstacles) == head + Prune(tail);
      assert obstacles == [obstacles[0]] + tail;
    }
  }

  /** Pruning works car by car and keeps the survivors in their order. */
  lemma {:induction false} PruneAppend(a: seq<Pos>, b: seq<Pos>)
    ensures Prune(a + b) == Prune(a) + Prune(b)
  {
    if a == [] {
      assert a + b == b;
    } else {
      var ab := a + b;
      var head := if a[0].y > OffscreenY then [] else [a[0]];
      assert ab[0] == a[0] && ab[1..] == a[1..] + b;
      assert Prune(ab) == head + Prune(a[1..] + b);
      assert Prune(a) == head + Prune(a[1..]);
      PruneAppend(a[1..], b);
      AppendAssoc(head, Prune(a[1..]), Prune(b));
    }
  }

  lemma AppendAssoc<T>(a: seq<T>, b: seq<T>, c: seq<T>)
    ensures (a + b) + c == a + (b + c)
  {
  }

  /** Pruning twice removes nothing more. */
  lemma {:induction false} PruneIdempotent(obstacles: seq<Pos>)
    ensures Prune(Prune(obstacles)) == Prune(obstacles)
  {
    if obstacles != [] {
      var head := if obstacles[0].y > OffscreenY then [] else [obstacles[0]];
      PruneAppend(head, Prune(obstacles[1..]));
      PruneIdempotent(obstacles[1..]);
    }
  }

  /** The player's move, the difficulty step, the spawn, the descent and the
      pruning: everything a running tick does before the collision scan. */
  function Advance(s: GameState, now: int, lane: nat): GameState
    requires lane < |Lanes|
  {
    var moved := s.(player := s.player.(x := ClampX(s.player.x + 0)));
    var harder := DifficultyStep(moved, now);
    var spawned := SpawnStep(harder, now, lane);
    spawned.(obstacles := Prune(Descend(spawned.obstacles, spawned.speed)))
  }

  /** The first obstacle, in list order, that the player collides with. */
  function FirstHit(player: Pos, obstacles: seq<Pos>): (r: Option<nat>)
    ensures r.Some? ==> r.value < |obstacles|
  {
    if obstacles == [] then None
    else if Hits(player, obstacles[0]) then Some(0)
    else match FirstHit(player, obstacles[1..])
      case None => None
      case Some(i) => Some(i + 1)
  }

  /** FirstHit finds the collision with the smallest index, and finds none
      exactly when the player collides with no obstacle. */
  lemma {:induction false} FirstHitFacts(player: Pos, obstacles: seq<Pos>)
    ensures var r := FirstHit(player, obstacles);
      && (r.Some? ==> Hits(player, obstacles[r.value]))
      && (r.Some? ==> forall k :: 0 <= k < r.value ==> !Hits(player, obstacles[k]))
      && (r.None? <==> forall k :: 0 <= k < |obstacles| ==> !Hits(player, obstacles[k]))
  {
    if obstacles != [] && !Hits(player, obstacles[0]) {
      var tail := obstacles[1..];
      FirstHitFacts(player, tail);
      forall k | 1 <= k < |obstacles|
        ensures obstacles[k] == tail[k - 1]
      {
      }
    }
  }

  /** The collision: the high score catches up with the score and the game pauses. */
  function GameOver(s: GameState): GameState {
    s.(highScore := if s.score > s.highScore then s.score else s.highScore, isPaused := true)
  }

  /** restartGame: score, speed, obstacles, player and both timestamps start
      over; the spawn interval and the high score are kept. */
  function Restarted(s: GameState, now: int): GameState {
    s.(score := 0, speed := InitialSpeed, obstacles := [], player := Pos(HomeLane, PlayerStartY),
       lastSpeedIncreaseTime := now, lastCarSpawnTime := now, isPaused := false)
  }

  lemma RestartedFacts(s: GameState, now: int)
    ensures var r := Restarted(s, now);
      && r.score == 0 && r.speed == InitialSpeed && r.obstacles == []
      && r.player == Pos(Lanes[1], PlayerStartY) && !r.isPaused
      && r.lastSpeedIncreaseTime == now && r.lastCarSpawnTime == now
      && r.spawnInterval == s.spawnInterval && r.highScore == s.highScore
  {
  }

  function Paused(s: GameState): GameState {
    s.(isPaused := true)
  }

  function Resumed(s: GameState): GameState {
    s.(isPaused := false)
  }

  /** checkCollisions: on a hit, game over, then restart or quit as the dialog answers. */
  function CollisionStep(s: GameState, now: int, response: int): Step {
    if FirstHit(s.player, s.obstacles).None? then Step(s, false, None)
    else
      var written := if s.score > s.highScore then Some(HighScoreFile.HighScoreText(s.score)) else None;
      if response == RestartChoice then Step(Restarted(GameOver(s), now), false, written)
      else Step(GameOver(s), true, written)
  }

  /** actionPerformed. */
  function Tick(s: GameState, input: TickInput): Step
    requires input.lane < |Lanes|
  {
    if s.isPaused then Step(s, false, None)
    else
      var checked := CollisionStep(Advance(s, input.now, input.lane), input.now, input.response);
      if checked.exited then checked
      else checked.(state := checked.state.(score := checked.state.score + 1))
  }

  predicate ValidInputs(inputs: seq<TickInput>) {
    forall i :: 0 <= i < |inputs| ==> inputs[i].lane < |Lanes|
  }

  /** A run of ticks, ending early if the player quits. */
  function Run(s: GameState, inputs: seq<TickInput>): GameState
    requires ValidInputs(inputs)
    decreases |inputs|
  {
    if inputs == [] then s
    else
      var step := Tick(s, inputs[0]);
      if step.exited then step.state else Run(step.state, inputs[1..])
  }

  // ---------------------------------------------------------------- what a tick promises

  /** A tick while paused changes nothing. */
  lemma PausedTickChangesNothing(s: GameState, input: TickInput)
    requires input.lane < |Lanes| && s.isPaused
    ensures Tick(s, input) == Step(s, false, None)
  {
  }

  /** However many ticks fire while the game is paused, nothing changes. */
  lemma {:induction false} PausedRunChangesNothing(s: GameState, inputs: seq<TickInput>)
    requires ValidInputs(inputs) && s.isPaused
    ensures Run(s, inputs) == s
    decreases |inputs|
  {
    if inputs != [] {
      PausedRunChangesNothing(s, inputs[1..]);
    }
  }

  /** A running tick with no collision: score +1, high score and pause flag
      untouched, the obstacles those that survive the descent and pruning. */
  lemma TickWithoutHit(s: GameState, input: TickInput)
    requires input.lane < |Lanes| && !s.isPaused
    requires var a := Advance(s, input.now, input.lane);
      forall k :: 0 <= k < |a.obstacles| ==> !Hits(a.player, a.obstacles[k])
    ensures var a := Advance(s, input.now, input.lane);
      var r := Tick(s, input);
      && !r.exited && r.written.None?
      && r.state.score == s.score + 1
      && r.state.highScore == s.highScore
      && !r.state.isPaused
      && r.state.obstacles == a.obstacles
      && (r.state.speed == s.speed || r.state.speed == s.speed + SpeedStep)
      && (forall k :: 0 <= k < |r.state.obstacles| ==> r.state.obstacles[k].y <= OffscreenY)
  {
    var a := Advance(s, input.now, input.lane);
    FirstHitFacts(a.player, a.obstacles);
    var harder := DifficultyStep(s.(player := s.player.(x := ClampX(s.player.x + 0))), input.now);
    var spawned := SpawnStep(harder, input.now, input.lane);
    PruneFacts(Descend(spawned.obstacles, spawned.speed));
  }

  /** A running tick with a collision: the high score becomes the larger of
      itself and the score, and the file is written, with the score, exactly
      when the score beats the old high score; "Restart" ends the tick
      restarted with score 1, anything else quits with the game paused. */
  lemma TickWithHit(s: GameState, input: TickInput)
    requires input.lane < |Lanes| && !s.isPaused
    requires var a := Advance(s, input.now, input.lane);
      exists k :: 0 <= k < |a.obstacles| && Hits(a.player, a.obstacles[k])
    ensures var r := Tick(s, input);
      && r.state.highScore == Max(s.highScore, s.score)
      && (r.written.Some? <==> s.score > s.highScore)
      && (r.written.Some? ==> r.written.value == HighScoreFile.HighScoreText(s.score))
      && r.state.spawnInterval == DifficultyStep(s, input.now).spawnInterval
      && (input.response == RestartChoice ==>
            && !r.exited && r.state.score == 1 && r.state.speed == InitialSpeed
            && r.state.obstacles == [] && r.state.player == Pos(HomeLane, PlayerStartY)
            && !r.state.isPaused
            && r.state.lastSpeedIncreaseTime == input.now && r.state.lastCarSpawnTime == input.now)
      && (input.response != RestartChoice ==> r.exited && r.state.isPaused && r.state.score == s.score)
  {
    var a := Advance(s, input.now, input.lane);
    FirstHitFacts(a.player, a.obstacles);
  }

  /** A difficulty step that shortens the interval lets a spawn through that
      the old interval would have held back. */
  lemma SpawnUsesNewIntervalExample()
    ensures var s := GameState(Pos(215, 600), [], 10, 5, 1900, 0, 28200, false, 0);
      var a := Advance(s, 30000, 0);
      30000 - s.lastCarSpawnTime < s.spawnInterval && a.obstacles == [Pos(80, 7)] && a.spawnInterval == 1700
  {
  }

  /** No tick, whatever happens in it, raises the spawn interval or takes it
      below 500; restarting keeps it. */
  lemma TickKeepsSpawnInterval(s: GameState, input: TickInput)
    requires input.lane < |Lanes| && SpawnIntervalReachable(s.spawnInterval)
    ensures var r := Tick(s, input);
      SpawnIntervalReachable(r.state.spawnInterval) && r.state.spawnInterval <= s.spawnInterval
  {
  }

  /** Over any run of ticks the spawn interval never rises and never falls below 500. */
  lemma {:induction false} RunKeepsSpawnInterval(s: GameState, inputs: seq<TickInput>)
    requires ValidInputs(inputs) && SpawnIntervalReachable(s.spawnInterval)
    ensures SpawnIntervalReachable(Run(s, inputs).spawnInterval)
    ensures Run(s, inputs).spawnInterval <= s.spawnInterval
    decreases |inputs|
  {
    if inputs != [] {
      TickKeepsSpawnInterval(s, inputs[0]);
      var step := Tick(s, inputs[0]);
      if !step.exited {
        RunKeepsSpawnInterval(step.state, inputs[1..]);
      }
    }
  }

  /** A player in a lane stays in a lane through a tick. */
  lemma TickKeepsPlayerInLane(s: GameState, input: TickInput)
    requires input.lane < |Lanes| && s.player.x in Lanes
    ensures Tick(s, input).state.player.x in Lanes
    ensures Tick(s, input).state.player.x == s.player.x || Tick(s, input).state.player == Pos(HomeLane, PlayerStartY)
  {
  }
}
