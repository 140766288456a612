# Lane racer and paddle game, modelled in Dafny

This project models the two Swing games of the repository.

**CarGame** is a three-lane racer. A 30 ms timer fires `actionPerformed`, which runs one tick in a fixed order:
- the player's car moves;
- every 30 seconds the speed rises by 2 and the spawn interval drops by 200 ms, but not below 500;
- a car spawns in a random lane once the spawn interval has passed;
- every obstacle moves down by the speed;
- cars more than 800 pixels down are removed;
- the first obstacle that overlaps the player ends the game. The high score is updated. A dialog then restarts the game or quits the process;
- otherwise the score goes up by one.

Besides the tick, the game has lane changes, pause and resume, restart, and a save/load text format. That format is four integer lines followed by one `x y` line per obstacle. The game also keeps a one-line high-score file.

**BrickBreakerGame** is a paddle-and-ball game. `update()` does the following in order:
- it steps the ball;
- it bounces the ball off the side walls and the ceiling;
- at the bottom, it costs a life. After the last life it stops the game, saves a better score as the high score and resets the board;
- a ball on the paddle turns around, scores a point and speeds up by a factor of 1.5, truncated.

The arrow keys move the paddle 40 pixels, within [0, 600].

The model is split into modules.

| module | what it is |
|---|---|
| `JavaText` | `Integer.toString`, `Integer.parseInt` (ASCII digits, optional sign, 32-bit range) and `String.split(" ")` on `seq<char>` |
| `Geometry` | `java.awt.Rectangle.intersects` |
| `HighScoreFile` | the one-line high-score file, read and written |
| `CarGameRules` | the racer's fields as a value and one function per stage of a tick |
| `CarGameSave` | the save-file text and the line-by-line load |
| `CarGame` | classes `Car` and `CarGame` |
| `BrickBreakerRules` | the paddle game's fields as a value, `update()` stage by stage, the run loop |
| `BrickBreaker` | class `BrickBreakerGame` |
| `JavaMath` | `Math.min` and `Math.max`, shared by both games |

The classes keep the source's mutable form:
- Obstacles are `Car` objects that the tick moves in place. The obstacle list is a `seq<Car>` field that the methods reassign.
- Every method is proved to take `State()` to the value that the matching pure function gives. The lemmas beside those functions state what the source promises: invariants kept over a whole run, round trips, error paths and order.

Inputs the source takes from outside the program are parameters:
- the clock is `now`;
- the random lane is `lane`;
- the game-over dialog's answer is `response`;
- `Random.nextBoolean` is `Coins`;
- file contents are sequences of lines. `None` stands for a file that cannot be opened.

`System.exit` is the `exited` result of a tick.

Behaviours of the code worth knowing:
- Loading a save file is not all-or-nothing. Each field is assigned as soon as its line parses, and a bad obstacle line leaves the obstacles read before it (`LoadIsNotAtomic`, `LoadStopsAtBadObstacleLine`). An obstacle line with one field throws an `ArrayIndexOutOfBoundsException`, which the `catch` clause does not catch. The model ends the load with the `IndexFailure` outcome.
- `restartGame` keeps the spawn interval and does not reset it (`RestartedFacts`).
- A paddle contact can score more than once. The paddle check does not look at which way the ball is moving, so a ball that has just bounced can still overlap the paddle on the next frame and score again (`PaddleContactScoresRepeatedly`).

## Model

| member | source | states |
|---|---|---|
| `CarGame.Car.constructor` | CarGame.java:502-507 | a new car is at the given position with dx 0 |
| `CarGame.Car.GetBounds` | CarGame.java:538-540 | the 40x100 box at the car's position, the same box as CarBounds; its overlap test is characterised by HitsIffCloserThanACar |
| `CarGame.Car.Move` | CarGame.java:509-513 | x becomes old x + dx clamped to [0, 430] |
| `CarGameRules.ClampX` | CarGame.java:509-513 | the result is min(max(x, 0), 430): below 0 gives 0, above 430 gives 430, and x already in range is kept |
| `CarGameRules.MoveKeepsLane` | CarGame.java:509-513 | with dx = 0, a car in a lane stays where it is |
| `CarGameRules.CarBounds` | CarGame.java:538-540 | the 40x100 box at a position, as getBounds builds it |
| `CarGameRules.Hits` | CarGame.java:340 | the collision test player.getBounds().intersects(car.getBounds()) on positions; HitsIffCloserThanACar and DifferentLanesNeverHit characterise it |
| `CarGameRules.HitsIffCloserThanACar` | CarGame.java:538-540 | two 40x100 car boxes intersect exactly when the corners are less than 40 apart across and less than 100 apart along the road |
| `CarGameRules.DifferentLanesNeverHit` | CarGame.java:49 | cars in two different lanes never collide, whatever their heights |
| `CarGameRules.HitExamples` | CarGame.java:538-540 | boxes touching only at an edge do not collide; overlapping boxes do |
| `Geometry.Intersects` | CarGame.java:340 | Rectangle.intersects: an empty rectangle meets nothing, and otherwise the two must overlap strictly on both axes; IntersectsIffSharedPixel characterises it by a shared pixel |
| `Geometry.IntersectsIffSharedPixel` | CarGame.java:340 | two rectangles intersect exactly when some pixel lies in both |
| `CarGameRules.LeftLane` | CarGame.java:464-471 | where the left-lane search puts an x; LaneMoves and LaneMovesUndoEachOther state it |
| `CarGameRules.RightLane` | CarGame.java:473-480 | where the right-lane search puts an x; LaneMoves and LaneMovesUndoEachOther state it |
| `CarGameRules.LaneMoves` | CarGame.java:464-480 | left and right move to the neighbouring lane, stop at the end lanes, leave a non-lane x alone, and map lanes to lanes and only lanes to lanes |
| `CarGameRules.LaneMovesUndoEachOther` | CarGame.java:464-480 | right undoes left except from the leftmost lane; left undoes right except from the rightmost |
| `CarGame.CarGame.MovePlayerToLeftLane` | CarGame.java:464-471 | the lane search puts the player in LeftLane(x) and changes nothing else |
| `CarGame.CarGame.MovePlayerToRightLane` | CarGame.java:473-480 | the lane search puts the player in RightLane(x) and changes nothing else |
| `CarGameRules.DifficultyStep` | CarGame.java:314-318 | the difficulty check; what it promises is DifficultyStepFacts and DifficultyStepIdempotent |
| `CarGameRules.DifficultyStepFacts` | CarGame.java:314-318 | once 30 000 ms have passed: speed +2, interval max(interval - 200, 500), timestamp now; otherwise nothing changes; nothing else ever changes; the interval stays reachable |
| `CarGameRules.DifficultyStepIdempotent` | CarGame.java:314-318 | a second difficulty step at the same moment changes nothing |
| `CarGame.CarGame.IncreaseDifficulty` | CarGame.java:314-318 | the fields change as DifficultyStep says |
| `CarGameRules.SpawnStep` | CarGame.java:319-322 | the spawn check with spawnCars; what it promises is SpawnStepFacts |
| `CarGameRules.SpawnStepFacts` | CarGame.java:319-322 | once the interval has passed, one car is appended at y = 0 in a lane and the old list is its prefix; otherwise nothing changes |
| `CarGame.CarGame.SpawnIfDue` | CarGame.java:319-322 | the list and timestamp change as SpawnStep says; every car afterwards is old or fresh |
| `CarGame.CarGame.SpawnCars` | CarGame.java:332-336 | one fresh car at the top of the drawn lane is appended; the rest of the list is unchanged |
| `CarGameRules.Descend` | CarGame.java:323-325 | the list keeps its length; DescendPointwise states each obstacle's new position |
| `CarGameRules.DescendPointwise` | CarGame.java:323-325 | every obstacle keeps its lane and place in the list and is `speed` further down |
| `CarGame.CarGame.MoveCarsDown` | CarGame.java:323-325 | updating each Car object in place moves the obstacle positions as Descend says |
| `CarGameRules.Prune` | CarGame.java:326 | the list never grows; which obstacles are kept, and their order, is PruneFacts and PruneAppend |
| `CarGame.Survivors` | CarGame.java:326 | removeIf on the Car objects never grows the list; SurvivorsFacts and SurvivorsPositions state what it keeps |
| `CarGameRules.PruneFacts` | CarGame.java:326 | every obstacle left is at most 800 down, and an obstacle is left exactly when it was there and at most 800 down |
| `CarGameRules.PruneAppend` | CarGame.java:326 | pruning works car by car and keeps the order |
| `CarGameRules.PruneIdempotent` | CarGame.java:326 | pruning twice removes nothing more |
| `CarGame.SurvivorsFacts` | CarGame.java:326 | removeIf keeps only cars from the list and never duplicates one |
| `CarGame.SurvivorsPositions` | CarGame.java:326 | removing the objects removes exactly the positions Prune removes |
| `CarGame.CarGame.RemoveOffscreenCars` | CarGame.java:326 | the obstacle positions become Prune of the old ones, and only old cars remain |
| `CarGame.CarGame.AdvanceCars` | CarGame.java:313-326 | the move, difficulty, spawn, descent and pruning together give Advance of the old state |
| `CarGameRules.FirstHit` | CarGame.java:338-340 | an index found is a position in the obstacle list; which index, and when there is none, is FirstHitFacts |
| `CarGameRules.Advance` | CarGame.java:313-326 | the stages of a tick before the collision check, in the source's order: move, difficulty, spawn, descent, pruning; AdvanceCars is proved equal to it, and TickWithoutHit states its result |
| `CarGameRules.CollisionStep` | CarGame.java:338-361 | no hit keeps the state and writes nothing; a hit updates the high score, writes it when beaten, pauses, then restarts or quits; its promises are TickWithHit and CheckCollisions |
| `CarGameRules.FirstHitFacts` | CarGame.java:338-340 | the scan finds the smallest index whose car overlaps the player, and finds none exactly when no car overlaps |
| `CarGame.CarGame.CheckCollisions` | CarGame.java:338-361 | the loop and break give CollisionStep: on a hit the high score catches up, the new high score's text is returned when written, and the game pauses, then restarts or quits as answered |
| `CarGame.CarGame.SaveHighScore` | CarGame.java:263-270 | the text written is the high score's decimal form, which reads back as the high score when it fits in an int |
| `CarGameRules.GameOver` | CarGame.java:343-347 | on a collision the high score becomes the larger of itself and the score and the game pauses; TickWithHit states it |
| `CarGameRules.Paused` | CarGame.java:388-389 | pauseGame on the state value: isPaused becomes true |
| `CarGameRules.Resumed` | CarGame.java:398-399 | resumeGame on the state value: isPaused becomes false |
| `CarGameRules.Restarted` | CarGame.java:408-417 | restartGame on the state value; what it sets and keeps is RestartedFacts |
| `CarGameRules.RestartedFacts` | CarGame.java:408-417 | score 0, speed 5, no obstacles, player at (215, 600), unpaused, both timestamps now; spawn interval and high score kept |
| `CarGame.CarGame.RestartGame` | CarGame.java:408-417 | the fields change as Restarted says |
| `CarGame.CarGame.PauseGame` | CarGame.java:388-389 | only the pause flag changes, to true |
| `CarGame.CarGame.ResumeGame` | CarGame.java:398-399 | only the pause flag changes, to false |
| `CarGame.CarGame.ActionPerformed` | CarGame.java:308-330 | one timer tick on the objects gives Tick of the old state, including the exit on "Quit" and the high-score file text written |
| `CarGameRules.Tick` | CarGame.java:308-330 | one tick: nothing while paused, otherwise Advance, CollisionStep, then score +1 unless the player quit; its promises are PausedTickChangesNothing, TickWithoutHit, TickWithHit, TickKeepsSpawnInterval and TickKeepsPlayerInLane |
| `CarGameRules.Run` | CarGame.java:308-330 | ticks one after another until one quits; its promises are PausedRunChangesNothing and RunKeepsSpawnInterval |
| `CarGameRules.PausedTickChangesNothing` | CarGame.java:309-311 | a tick while paused changes nothing and writes nothing |
| `CarGameRules.PausedRunChangesNothing` | CarGame.java:309-311 | any number of ticks while paused change nothing |
| `CarGameRules.TickWithoutHit` | CarGame.java:308-330 | with no collision: score +1, nothing written, high score and pause flag kept, speed the same or +2, every obstacle at most 800 down |
| `CarGameRules.TickWithHit` | CarGame.java:308-361 | with a collision: high score max(high score, score), and the score written to the file exactly when it beats the old high score; "Restart" gives score 1 (restart, then score++), speed 5, no obstacles, home lane; any other answer exits paused |
| `CarGameRules.SpawnUsesNewIntervalExample` | CarGame.java:314-322 | a difficulty step that shortens the interval lets a spawn through in the same tick |
| `CarGameRules.TickKeepsSpawnInterval` | CarGame.java:314-318 | no tick raises the spawn interval or takes it off 1900, 1700, ..., 500 |
| `CarGameRules.RunKeepsSpawnInterval` | CarGame.java:308-330 | over any run of ticks the spawn interval never rises and stays one of 1900, ..., 500 |
| `CarGameRules.TickKeepsPlayerInLane` | CarGame.java:308-330 | a player in a lane stays in the same lane through a tick, or is sent home by a restart |
| `CarGame.CarGame.constructor` | CarGame.java:55-129 | the initial fields (home lane, speed 5, interval 1900, timestamps now) and the high score read from its file |
| `CarGame.CarGame.LoadHighScore` | CarGame.java:249-261 | only the high score changes, as HighScoreFile.LoadHighScore says |
| `HighScoreFile.LoadHighScore` | CarGame.java:249-261 | a first line that is present, non-empty and parses gives its number; in every other case (no file, no line, an empty line, a non-number) the old value is kept |
| `HighScoreFile.HighScoreText` | CarGame.java:263-270 | String.valueOf of the high score on one line; HighScoreRoundTrip states that it reads back (the same text as BrickBreakerGame.java:185-193) |
| `HighScoreFile.HighScoreRoundTrip` | CarGame.java:263-270 | reading back a saved high score gives it back |
| `HighScoreFile.UnreadableHighScoreKept` | CarGame.java:249-261 | four sample files keep the high score: no file, no lines, an empty first line, and the word "best" |
| `CarGameSave.SaveText` | CarGame.java:272-285 | the save file's lines: score, speed, player x, player y, then one `x y` line per obstacle; SaveLoadRoundTrip states that it loads back |
| `CarGame.CarGame.SaveGameState` | CarGame.java:272-285 | the loop writes exactly SaveText of the state: the four fields, then one `x y` line per obstacle in list order |
| `CarGame.CarGame.WriteObstacles` | CarGame.java:278-280 | the for-each loop writes exactly ObstacleLines of the obstacle positions |
| `CarGameSave.ObstacleLine` | CarGame.java:279 | one obstacle as `x y`; ObstacleLineRoundTrip states that it parses back |
| `CarGameSave.ObstacleLines` | CarGame.java:278-280 | one line per obstacle, in order; ObstacleLinesAppend and ObstacleLinesRoundTrip state it |
| `CarGameSave.ObstacleLinesAppend` | CarGame.java:278-280 | one more obstacle appends its one line |
| `CarGameSave.ParseLine` | CarGame.java:289-292 | a value is read only from a line that exists (readLine gives null past the end) |
| `CarGameSave.ParseObstacles` | CarGame.java:293-300 | the obstacle-line loop on values; ParseObstaclesPrefix, ParseObstaclesStop and ParseObstaclesResume state what it loads and where it stops |
| `CarGameSave.ParseObstaclesPrefix` | CarGame.java:293-300 | the cars loaded are the first lines, parsed, in order |
| `CarGameSave.ParseObstaclesStop` | CarGame.java:293-300 | the load finishes only when every line was read; otherwise it stops on the line after the last car loaded, with that line's error |
| `CarGameSave.ParseObstaclesResume` | CarGame.java:295-300 | reading line i either stops with its error or adds one obstacle and continues |
| `CarGameSave.ParseObstaclesFinished` | CarGame.java:295-300 | once all lines are read the load is complete |
| `CarGameSave.ParseObstacleLine` | CarGame.java:296-299 | split, parse both fields, or the error the first bad step gives; ObstacleLineRoundTrip and ObstacleLineExamples state its cases |
| `CarGameSave.ObstacleLineRoundTrip` | CarGame.java:296-298 | the split-and-parse of a written `x y` line gives the obstacle back |
| `CarGameSave.ObstacleLineExamples` | CarGame.java:296-298 | "5 6" parses; a line with no space fails on parts[1] |
| `CarGameSave.ObstacleLinesRoundTrip` | CarGame.java:293-300 | the obstacle lines written for int coordinates load back as the same list |
| `CarGameSave.SaveLoadRoundTrip` | CarGame.java:272-305 | loading what was saved restores score, speed, player and obstacles in order, and keeps every other field |
| `CarGameSave.Load` | CarGame.java:287-305 | loadGameState on values, with the partial state an error leaves; its promises are SaveLoadRoundTrip, LoadKeepsOtherFields, LoadOfMissingFile, LoadIsNotAtomic and LoadStopsAtBadObstacleLine |
| `CarGameSave.LoadKeepsOtherFields` | CarGame.java:287-305 | loading never touches the spawn interval, the timestamps, the pause flag or the high score |
| `CarGameSave.LoadOfMissingFile` | CarGame.java:287-305 | a file that cannot be opened changes nothing |
| `CarGameSave.HeaderExample` | CarGame.java:289-292 | the four header lines "1" to "4" read as 1 to 4 |
| `CarGameSave.LoadIsNotAtomic` | CarGame.java:289-292 | a good first line and a bad second line leave the score loaded |
| `CarGameSave.LoadStopsAtBadObstacleLine` | CarGame.java:295-300 | the obstacles before a bad line are kept, and a one-field line ends the load with the index error |
| `CarGame.CarGame.LoadGameState` | CarGame.java:287-305 | the field-by-field load on the objects gives Load of the old state and its outcome |
| `CarGame.CarGame.ReadObstacles` | CarGame.java:293-300 | the while loop appends ParseObstacles' cars and ends with its outcome |
| `CarGame.CarGame.ReadObstacleLine` | CarGame.java:296-299 | one line gives ParseObstacleLine's result; on success one fresh car with that position is appended, and on failure the list is unchanged |
| `JavaText.NatToString` | CarGame.java:274-279 | decimal digits with no leading zero |
| `JavaText.IntToString` | CarGame.java:274-279 | a non-empty string with no space |
| `JavaText.ParseInt` | CarGame.java:289 | a parsed value always fits in 32 bits |
| `JavaText.ParseIntOfIntToString` | CarGame.java:289-292 | parsing what toString wrote gives the number back exactly when it fits in an int |
| `JavaText.ParseIntAcceptsLeadingZeros` | CarGame.java:289 | "007" and "+5" parse; "", "-" and "1x" do not |
| `JavaText.Split` | CarGame.java:296 | String.split(" ") with limit 0; SplitOfJoin and SplitEdgeCases state its results |
| `JavaText.SplitOfJoin` | CarGame.java:296 | two space-free words joined by a space split back into the two words |
| `JavaText.SplitEdgeCases` | CarGame.java:296 | split keeps leading empty pieces and drops trailing ones |
| `BrickBreakerRules.KeyPressed` | BrickBreakerGame.java:51-59 | the paddle keys on the board value; KeyPressedFacts and PaddleMovesUndoEachOther state the result |
| `BrickBreakerRules.KeyPressedFacts` | BrickBreakerGame.java:51-59 | left gives max(x - 40, 0), right min(x + 40, 600), other keys nothing; the paddle stays in [0, 600]; no other field changes |
| `BrickBreakerRules.PaddleMovesUndoEachOther` | BrickBreakerGame.java:51-59 | away from the edges, right undoes left and left undoes right |
| `BrickBreaker.BrickBreakerGame.KeyPressed` | BrickBreakerGame.java:51-59 | the paddle moves as KeyPressed says and the board stays playable |
| `BrickBreakerRules.InitialPlayable` | BrickBreakerGame.java:18-39 | a new game has the paddle at 300, the ball at (385, 285), 3 lives, no score, and is playable |
| `BrickBreaker.BrickBreakerGame.constructor` | BrickBreakerGame.java:18-40 | the initialisers then randomizeBallDirection |
| `BrickBreakerRules.Direction` | BrickBreakerGame.java:135-137 | one nextBoolean answer as a velocity component, 2 or -2; RandomizedFacts states it |
| `BrickBreakerRules.Randomized` | BrickBreakerGame.java:132-139 | randomizeBallDirection on the board value; RandomizedFacts states the result |
| `BrickBreakerRules.RandomizedFacts` | BrickBreakerGame.java:132-139 | each velocity component becomes 2 or -2, and nothing else changes |
| `BrickBreaker.BrickBreakerGame.RandomizeBallDirection` | BrickBreakerGame.java:132-139 | the velocity is set as Randomized says |
| `BrickBreakerRules.Scale` | BrickBreakerGame.java:119-120 | the `*= 1.50` with the `(int)` truncation toward zero; ScaleFacts and ScaleExamples state the result |
| `BrickBreakerRules.ScaleFacts` | BrickBreakerGame.java:119-120 | `*= 1.50` keeps the sign, truncates 1.5 times its magnitude toward zero, never slows a component and speeds up any of at least 2 |
| `BrickBreakerRules.ScaleExamples` | BrickBreakerGame.java:119-120 | 2 becomes 3, -2 becomes -3, 3 becomes 4, -3 becomes -4 |
| `BrickBreakerRules.Update` | BrickBreakerGame.java:84-122 | one frame: step, wall bounce, ceiling or floor, paddle; UpdateCases, UpdateKeepsPlayable, UpdateHighScore and UpdateStopsOnlyAtGameOver state the result |
| `BrickBreakerRules.Stepped` | BrickBreakerGame.java:85-86 | the ball moves by its velocity; UpdateCases states the result |
| `BrickBreakerRules.WallBounce` | BrickBreakerGame.java:88-90 | a ball at or past a side wall turns around across; UpdateCases states the result |
| `BrickBreakerRules.OnPaddle` | BrickBreakerGame.java:114-116 | the paddle contact test, which does not look at the ball's direction; PaddleContactScoresRepeatedly shows the consequence |
| `BrickBreakerRules.CeilingOrFloor` | BrickBreakerGame.java:91-111 | the ceiling bounce or the bottom branch; CeilingOrFloorKeepsPlayable and UpdateCases state it |
| `BrickBreakerRules.LoseLife` | BrickBreakerGame.java:93-111 | a life lost, and at game over the stop, the save of a better score and the reset; UpdateHighScore, WrittenHighScoreReadsBack and UpdateStopsOnlyAtGameOver state it |
| `BrickBreakerRules.PaddleBounce` | BrickBreakerGame.java:114-121 | the paddle contact; PaddleBounceKeepsPlayable and PaddleContactScoresRepeatedly state it |
| `BrickBreakerRules.Reset` | BrickBreakerGame.java:124-130 | resetGame on the board value; UpdateStopsOnlyAtGameOver states the board it leaves |
| `BrickBreakerRules.UpdateCases` | BrickBreakerGame.java:84-122 | one frame, case by case: ceiling bounce, free flight with or without a paddle hit (score +1, velocity turned and scaled), a lost life, and game over with reset and high score |
| `BrickBreakerRules.UpdateKeepsPlayable` | BrickBreakerGame.java:84-130 | a frame keeps the paddle in range, lives in [1, 3], both velocity components at least 2 in size and the score not negative |
| `BrickBreakerRules.CeilingOrFloorKeepsPlayable` | BrickBreakerGame.java:91-111 | the ceiling bounce and the lost-life branches keep the board playable |
| `BrickBreakerRules.PaddleBounceKeepsPlayable` | BrickBreakerGame.java:114-121 | the paddle bounce keeps the board playable |
| `BrickBreakerRules.UpdateHighScore` | BrickBreakerGame.java:93-104 | the high score never falls; it changes only at game over, only to a larger score; it is written to the file exactly then |
| `BrickBreakerRules.WrittenHighScoreReadsBack` | BrickBreakerGame.java:170-193 | the file written at game over reads back as the new high score |
| `BrickBreakerRules.UpdateStopsOnlyAtGameOver` | BrickBreakerGame.java:93-111 | a running game stops exactly when the last life is lost, and then starts over with score 0 and 3 lives |
| `BrickBreakerRules.PaddleContactScoresRepeatedly` | BrickBreakerGame.java:113-121 | a ball that just bounced off the paddle scores again on the next frame |
| `BrickBreakerRules.Run` | BrickBreakerGame.java:67-82 | the game loop over a sequence of coin pairs; RunOfStoppedGame, GameOverEndsRun and RunKeepsPlayable state it |
| `BrickBreakerRules.RunOfStoppedGame` | BrickBreakerGame.java:67-82 | once isRunning is false, the loop runs no further update |
| `BrickBreakerRules.GameOverEndsRun` | BrickBreakerGame.java:67-82 | the update that loses the last life is the last one run |
| `BrickBreakerRules.RunKeepsPlayable` | BrickBreakerGame.java:67-82 | every board the loop reaches is playable, keeps the paddle still and never lowers the high score |
| `BrickBreaker.BrickBreakerGame.Update` | BrickBreakerGame.java:84-122 | the field updates give Update of the old board and the text saved, and keep the board playable |
| `BrickBreaker.BrickBreakerGame.MoveBall` | BrickBreakerGame.java:85-90 | the ball steps and bounces off the side walls |
| `BrickBreaker.BrickBreakerGame.HitCeilingOrFloor` | BrickBreakerGame.java:91-111 | the ceiling and bottom checks give CeilingOrFloor |
| `BrickBreaker.BrickBreakerGame.LoseLife` | BrickBreakerGame.java:93-111 | the bottom branch gives LoseLife, including the save at game over |
| `BrickBreaker.BrickBreakerGame.CheckPaddle` | BrickBreakerGame.java:114-121 | the paddle check gives PaddleBounce |
| `BrickBreaker.BrickBreakerGame.ResetGame` | BrickBreakerGame.java:124-130 | score 0, 3 lives, ball at the centre with a new direction |
| `BrickBreaker.BrickBreakerGame.SaveHighScore` | BrickBreakerGame.java:185-193 | the text written is the high score's decimal form, which reads back as the high score when it fits in an int |
| `BrickBreaker.BrickBreakerGame.LoadHighScore` | BrickBreakerGame.java:170-183 | only the high score changes, as HighScoreFile.LoadHighScore says |
| `BrickBreaker.BrickBreakerGame.RunGame` | BrickBreakerGame.java:67-82 | the loop gives Run: updates while the game runs, ending at game over, and returns the last text saved |

## Left out

- Audio is not modelled: clip loading, playback, volume controls and the settings dialog (CarGame.java:136-201, 431-462). These are library calls with no logic.
- Rendering is not modelled: `paintComponent`, `drawLanes`, `drawCrashEffect`, `Car.draw` and every `repaint()` (CarGame.java:203-247, 515-536; BrickBreakerGame.java:141-168). These are pure drawing.
- Swing wiring is not modelled: the buttons and their visibility (CarGame.java:72-127 and the button lines of `pauseGame`, `resumeGame` and `restartGame`), the `Timer` start and stop, and the `main` methods.
- CarGame's `keyPressed` (CarGame.java:363-386) only dispatches each key to a method that is modelled. The dispatch itself and the horn and side sounds are left out.
- The game-over dialog is the `response` parameter: 0 is "Restart", any other value quits. `System.exit(0)` is the `exited` result, and nothing runs after it.
- The Car `color` field is left out, because it only affects drawing.
- The clock: the source calls `System.currentTimeMillis()` up to six times in a tick: four times in `actionPerformed` and twice more in `restartGame` when a collision is answered with "Restart" (CarGame.java:415-416). The `CarGame` constructor reads it twice too (CarGame.java:68-69). The model uses one `now` per tick, the restart timestamps are that same `now`, and the constructor gives both timestamps one `now`, so it does not cover the clock moving between those reads.
- Randomness: `Random.nextInt(3)` is the `lane` parameter and each `Random.nextBoolean()` is a coin. The model treats them as free choices, not as a distribution.
- Files are sequences of lines: what is read arrives as `Option<seq<string>>` and what is written is returned. Newline handling, write failures and the console messages are left out.
- `JavaText.ParseInt` accepts ASCII digits only. `Integer.parseInt` also accepts other Unicode decimal digits.
- The rest of loading a save file after the uncaught `ArrayIndexOutOfBoundsException` (CarGame.java:298) is left out: the exception reaching the event thread. The model stops with the `IndexFailure` outcome.
- `CarGame.CarGame.ActionPerformed` does not model 32-bit wrap-around of `score` or `speed`, because integers are unbounded; the same holds for the positions.
- `BrickBreakerRules.ScaleFacts` does not model the saturation of the `(int)` cast for products beyond the int range, or the wrap of `score++`, because integers are unbounded.
- `Geometry.IntersectsIffSharedPixel` does not model the overflow branches inside `Rectangle.intersects`. They cannot arise for the 40x100 car boxes of in-range positions.
- BrickBreaker threading is not modelled. The game-loop thread runs `update()` while the UI thread handles key presses, and the constructor's `randomizeBallDirection` and `main`'s `loadHighScore` both run after the loop has started. The model runs each method atomically.
- `BrickBreaker.BrickBreakerGame.RunGame` is bounded by the number of coin pairs it is given, and `Thread.sleep(10)` is left out.
- `myfirstprg.java` is not part of this model: it is a console sign-up tool unrelated to the games.
