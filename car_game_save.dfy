/** The save file of CarGame as a sequence of lines: score, speed, the
    player's x and y, then "x y" for each obstacle in list order. Loading
    assigns each field as soon as its line parses, so a failure part-way
    leaves the fields read before it changed. */
module CarGameSave {
  import opened JavaText
  import opened CarGameRules

  /** How a load ends: in full, on a missing file, on a NumberFormatException
      (both caught by loadGameState), or on an obstacle line with too few
      fields (an ArrayIndexOutOfBoundsException, which is not caught). */
  datatype LoadOutcome = Loaded | IoFailure | FormatFailure | IndexFailure

  datatype LoadResult = LoadResult(state: GameState, outcome: LoadOutcome)

  datatype LineResult = Parsed(pos: Pos) | Failed(outcome: LoadOutcome)

  /** What parsing the obstacle lines built before it stopped, and why it stopped. */
  datatype ObstacleParse = ObstacleParse(cars: seq<Pos>, outcome: LoadOutcome)

  function ObstacleLine(p: Pos): string {
    IntToString(p.x) + " " + IntToString(p.y)
  }

  function ObstacleLines(obstacles: seq<Pos>): (lines: seq<string>)
    ensures |lines| == |obstacles|
  {
    if obstacles == [] then [] else [ObstacleLine(obstacles[0])] + ObstacleLines(obstacles[1..])
  }

  /** Saving one more obstacle writes one more line at the end. */
  lemma {:induction false} ObstacleLinesAppend(obstacles: seq<Pos>, p: Pos)
    ensures ObstacleLines(obstacles + [p]) == ObstacleLines(obstacles) + [ObstacleLine(p)]
  {
    if obstacles == [] {
      assert obstacles + [p] == [p];
    } else {
      assert (obstacles + [p])[1..] == obstacles[1..] + [p];
      ObstacleLinesAppend(obstacles[1..], p);
    }
  }

  /** saveGameState. */
  function SaveText(s: GameState): seq<string> {
    [IntToString(s.score), IntToString(s.speed), IntToString(s.player.x), IntToString(s.player.y)]
      + ObstacleLines(s.obstacles)
  }

  /** reader.readLine() and Integer.parseInt: past the last line readLine
      gives null, which parseInt rejects like any malformed number. */
  function ParseLine(lines: seq<string>, i: nat): (r: Option<int>)
    ensures r.Some? ==> i < |lines|
  {
    if i < |lines| then ParseInt(lines[i]) else None
  }

  /** One obstacle line: split at spaces, parts[0] is x and parts[1] is y. */
  function ParseObstacleLine(line: string): LineResult {
    var parts := Split(line);
    if |parts| == 0 then Failed(IndexFailure)
    else match ParseInt(parts[0])
      case None => Failed(FormatFailure)
      case Some(x) =>
        if |parts| < 2 then Failed(IndexFailure)
        else match ParseInt(parts[1])
          case None => Failed(FormatFailure)
          case Some(y) => Parsed(Pos(x, y))
  }

  /** The obstacle loop of loadGameState: cars are added one line at a time. */
  function ParseObstacles(lines: seq<string>): (r: ObstacleParse)
  {
    if lines == [] then ObstacleParse([], Loaded)
    else match ParseObstacleLine(lines[0])
      case Failed(o) => ObstacleParse([], o)
      case Parsed(p) =>
        var rest := ParseObstacles(lines[1..]);
        ObstacleParse([p] + rest.cars, rest.outcome)
  }

  /** The cars the obstacle loop builds are the lines read before it
      stopped, in order. */
  lemma {:induction false} ParseObstaclesPrefix(lines: seq<string>)
    ensures var r := ParseObstacles(lines);
      && |r.cars| <= |lines|
      && forall k :: 0 <= k < |r.cars| ==> ParseObstacleLine(lines[k]) == Parsed(r.cars[k])
  {
    if lines != [] {
      var first := ParseObstacleLine(lines[0]);
      if first.Parsed? {
        var tail := lines[1..];
        var rest := ParseObstacles(tail);
        ParseObstaclesPrefix(tail);
        var r := ObstacleParse([first.pos] + rest.cars, rest.outcome);
        assert ParseObstacles(lines) == r;
        forall k | 1 <= k < |r.cars|
          ensures ParseObstacleLine(lines[k]) == Parsed(r.cars[k])
        {
          assert lines[k] == tail[k - 1] && r.cars[k] == rest.cars[k - 1];
        }
      }
    }
  }

  /** The obstacle loop ends with Loaded exactly when it read every line,
      and otherwise on the line after the last car, with that line's failure;
      a missing file is never its outcome. */
  lemma {:induction false} ParseObstaclesStop(lines: seq<string>)
    ensures var r := ParseObstacles(lines);
      && r.outcome != IoFailure
      && (r.outcome == Loaded <==> |r.cars| == |lines|)
      && (r.outcome != Loaded ==> |r.cars| < |lines| && ParseObstacleLine(lines[|r.cars|]) == Failed(r.outcome))
  {
    if lines != [] {
      var first := ParseObstacleLine(lines[0]);
      if first.Parsed? {
        var tail := lines[1..];
        var rest := ParseObstacles(tail);
        ParseObstaclesStop(tail);
        assert ParseObstacles(lines) == ObstacleParse([first.pos] + rest.cars, rest.outcome);
        if rest.outcome != Loaded {
          assert lines[|rest.cars| + 1] == tail[|rest.cars|];
        }
      }
    }
  }

  /** The obstacles `done` already read, followed by what reading the rest gives. */
  function Resume(done: seq<Pos>, rest: ObstacleParse): ObstacleParse {
    ObstacleParse(done + rest.cars, rest.outcome)
  }

  /** Reading line i either stops the load there or adds one obstacle. */
  lemma ParseObstaclesResume(lines: seq<string>, i: nat, done: seq<Pos>)
    requires i < |lines|
    requires ParseObstacles(lines) == Resume(done, ParseObstacles(lines[i..]))
    ensures match ParseObstacleLine(lines[i])
      case Failed(o) => ParseObstacles(lines) == ObstacleParse(done, o)
      case Parsed(p) => ParseObstacles(lines) == Resume(done + [p], ParseObstacles(lines[i + 1..]))
  {
    var tail := lines[i..];
    assert tail != [] && tail[0] == lines[i] && tail[1..] == lines[i + 1..];
    match ParseObstacleLine(lines[i])
    case Failed(o) =>
      assert ParseObstacles(tail) == ObstacleParse([], o);
      assert done + [] == done;
    case Parsed(p) =>
      var rest := ParseObstacles(lines[i + 1..]);
      assert ParseObstacles(tail) == ObstacleParse([p] + rest.cars, rest.outcome);
      AppendAssoc(done, [p], rest.cars);
  }

  /** Once every line is read, the load is complete. */
  lemma ParseObstaclesFinished(lines: seq<string>, done: seq<Pos>)
    requires ParseObstacles(lines) == Resume(done, ParseObstacles(lines[|lines|..]))
    ensures ParseObstacles(lines) == ObstacleParse(done, Loaded)
  {
    assert lines[|lines|..] == [];
    assert done + [] == done;
  }

  /** loadGameState: score, speed, player x and player y are assigned as each
      parses; then the obstacle list is cleared and refilled line by line.
      The spawn interval, the timestamps, the pause flag and the high score
      are never touched. */
  function Load(s: GameState, file: Option<seq<string>>): LoadResult {
    if file.None? then LoadResult(s, IoFailure)
    else
      var lines := file.value;
      match ParseLine(lines, 0)
      case None => LoadResult(s, FormatFailure)
      case Some(score) =>
        var s1 := s.(score := score);
        match ParseLine(lines, 1)
        case None => LoadResult(s1, FormatFailure)
        case Some(speed) =>
          var s2 := s1.(speed := speed);
          match ParseLine(lines, 2)
          case None => LoadResult(s2, FormatFailure)
          case Some(x) =>
            var s3 := s2.(player := s2.player.(x := x));
            match ParseLine(lines, 3)
            case None => LoadResult(s3, FormatFailure)
            case Some(y) =>
              var s4 := s3.(player := s3.player.(y := y), obstacles := []);
              var parsed := ParseObstacles(lines[4..]);
              LoadResult(s4.(obstacles := parsed.cars), parsed.outcome)
  }

  /** Every number the save file holds fits in a Java int (the fields are ints). */
  predicate Savable(s: GameState) {
    && InInt32(s.score) && InInt32(s.speed) && InInt32(s.player.x) && InInt32(s.player.y)
    && forall k :: 0 <= k < |s.obstacles| ==> InInt32(s.obstacles[k].x) && InInt32(s.obstacles[k].y)
  }

  lemma ObstacleLineRoundTrip(p: Pos)
    requires InInt32(p.x) && InInt32(p.y)
    ensures ParseObstacleLine(ObstacleLine(p)) == Parsed(p)
  {
    SplitOfJoin(IntToString(p.x), IntToString(p.y));
    ParseIntOfIntToString(p.x);
    ParseIntOfIntToString(p.y);
  }

  lemma {:induction false} ObstacleLinesRoundTrip(obstacles: seq<Pos>)
    requires forall k :: 0 <= k < |obstacles| ==> InInt32(obstacles[k].x) && InInt32(obstacles[k].y)
    ensures ParseObstacles(ObstacleLines(obstacles)) == ObstacleParse(obstacles, Loaded)
  {
    if obstacles != [] {
      ObstacleLineRoundTrip(obstacles[0]);
      ObstacleLinesRoundTrip(obstacles[1..]);
      assert ObstacleLines(obstacles)[1..] == ObstacleLines(obstacles[1..]);
      assert [obstacles[0]] + obstacles[1..] == obstacles;
    }
  }

  /** Loading what was saved restores score, speed, the player's position and
      the obstacles in their order, and leaves every other field of the
      game that loads it as it was. */
  lemma SaveLoadRoundTrip(saved: GameState, current: GameState)
    requires Savable(saved)
    ensures Load(current, Some(SaveText(saved))) ==
      LoadResult(current.(score := saved.score, speed := saved.speed, player := saved.player, obstacles := saved.obstacles), Loaded)
  {
    var lines := SaveText(saved);
    ParseIntOfIntToString(saved.score);
    ParseIntOfIntToString(saved.speed);
    ParseIntOfIntToString(saved.player.x);
    ParseIntOfIntToString(saved.player.y);
    assert lines[4..] == ObstacleLines(saved.obstacles);
    ObstacleLinesRoundTrip(saved.obstacles);
  }

  /** Whatever the file holds, loading never touches the spawn interval, the
      timestamps, the pause flag or the high score. */
  lemma LoadKeepsOtherFields(s: GameState, file: Option<seq<string>>)
    ensures var r := Load(s, file).state;
      && r.spawnInterval == s.spawnInterval
      && r.lastSpeedIncreaseTime == s.lastSpeedIncreaseTime && r.lastCarSpawnTime == s.lastCarSpawnTime
      && r.isPaused == s.isPaused && r.highScore == s.highScore
  {
  }

  /** A missing file changes nothing. */
  lemma LoadOfMissingFile(s: GameState)
    ensures Load(s, None) == LoadResult(s, IoFailure)
  {
  }

  /** Loading is not all-or-nothing: a good first line and a bad second line
      leave the score loaded and everything else as it was. */
  lemma LoadIsNotAtomic(s: GameState)
    ensures Load(s, Some(["12", "fast"])) == LoadResult(s.(score := 12), FormatFailure)
  {
    assert DigitsValue("12"[..1]) == 1;
    assert !IsDigit('f');
  }

  /** A bad obstacle line leaves the obstacles read before it, and an obstacle
      line with a single field ends the load with an uncaught index error. */
  lemma LoadStopsAtBadObstacleLine(s: GameState)
    ensures Load(s, Some(["1", "2", "3", "4", "5 6", "7"])) ==
      LoadResult(s.(score := 1, speed := 2, player := Pos(3, 4), obstacles := [Pos(5, 6)]), IndexFailure)
  {
    var lines := ["1", "2", "3", "4", "5 6", "7"];
    HeaderExample(lines);
    ObstacleLineExamples();
    assert lines[4..] == ["5 6", "7"];
    assert ParseObstacles(["5 6", "7"]) == ObstacleParse([Pos(5, 6)], IndexFailure);
  }

  lemma HeaderExample(lines: seq<string>)
    requires |lines| >= 4 && lines[0] == "1" && lines[1] == "2" && lines[2] == "3" && lines[3] == "4"
    ensures ParseLine(lines, 0) == Some(1) && ParseLine(lines, 1) == Some(2)
    ensures ParseLine(lines, 2) == Some(3) && ParseLine(lines, 3) == Some(4)
  {
    assert "1"[..0] == "2"[..0] == "3"[..0] == "4"[..0] == [];
  }

  lemma ObstacleLineExamples()
    ensures ParseObstacleLine("5 6") == Parsed(Pos(5, 6))
    ensures ParseObstacleLine("7") == Failed(IndexFailure)
  {
    assert "5 6" == "5" + " " + "6";
    SplitOfJoin("5", "6");
    assert Split("7") == ["7"];
  }
}
