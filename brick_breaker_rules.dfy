/** The paddle-and-ball game as values: the fields BrickBreakerGame keeps,
    one function per step of update() in the order the method runs them,
    the paddle keys, and what a frame of the game promises. The class in
    module BrickBreaker is proved to follow these functions. */
module BrickBreakerRules {
  import opened JavaText
  import opened JavaMath
  import HighScoreFile

  const Width: int := 800
  const Height: int := 600
  const PaddleWidth: int := 200
  const PaddleHeight: int := 50
  const BallSize: int := 30
  const PaddleStep: int := 40
  const StartLives: int := 3
  /** The speed randomizeBallDirection gives each component of the ball's velocity. */
  const BallSpeed: int := 2

  /** WIDTH / 2 - PADDLE_WIDTH / 2 */
  const PaddleStartX: int := Width / 2 - PaddleWidth / 2
  /** WIDTH - PADDLE_WIDTH, the right end of the paddle's travel. */
  const MaxPaddleX: int := Width - PaddleWidth
  /** WIDTH / 2 - BALL_SIZE / 2 and HEIGHT / 2 - BALL_SIZE / 2 */
  const CentreX: int := Width / 2 - BallSize / 2
  const CentreY: int := Height / 2 - BallSize / 2

  /** The key codes keyPressed tells apart. */
  datatype Key = LeftKey | RightKey | OtherKey

  /** The fields of BrickBreakerGame. */
  datatype Board = Board(
    paddleX: int,
    ballX: int,
    ballY: int,
    ballDX: int,
    ballDY: int,
    score: int,
    lives: int,
    highScore: int,
    isRunning: bool)

  /** One update: the new board, and the text saveHighScore wrote to the
      high-score file, if it was called. */
  datatype Frame = Frame(board: Board, written: Option<seq<string>>)

  /** The two answers of Random.nextBoolean one randomizeBallDirection draws. */
  datatype Coins = Coins(coinX: bool, coinY: bool)

  /** The fields as the constructor leaves them before it randomizes the
      ball's direction; the high score is Java's default 0. */
  const InitialBoard: Board := Board(PaddleStartX, CentreX, CentreY, BallSpeed, -BallSpeed, 0, StartLives, 0, true)

  /** What the class keeps true: the paddle within its travel, one to three
      lives, neither velocity component slower than 2, a score that is not
      negative. */
  predicate Playable(b: Board) {
    && 0 <= b.paddleX <= MaxPaddleX
    && 1 <= b.lives <= StartLives
    && (b.ballDX <= -BallSpeed || BallSpeed <= b.ballDX)
    && (b.ballDY <= -BallSpeed || BallSpeed <= b.ballDY)
    && b.score >= 0
  }

  // ---------------------------------------------------------------- the paddle

  /** keyPressed: left moves the paddle 40 to the left but not past 0, right
      moves it 40 to the right but not past 600; other keys do nothing. */
  function KeyPressed(b: Board, key: Key): Board {
    match key
    case LeftKey =>
      var x := b.paddleX - PaddleStep;
      b.(paddleX := if x < 0 then 0 else x)
    case RightKey =>
      var x := b.paddleX + PaddleStep;
      b.(paddleX := if x > MaxPaddleX then MaxPaddleX else x)
    case OtherKey => b
  }


  /** A key press moves the paddle to max(x - 40, 0) or min(x + 40, 600),
      keeps it within [0, 600], and touches nothing else. */
  lemma KeyPressedFacts(b: Board, key: Key)
    ensures var r := KeyPressed(b, key);
      && r.(paddleX := b.paddleX) == b
      && (key == LeftKey ==> r.paddleX == Max(b.paddleX - PaddleStep, 0))
      && (key == RightKey ==> r.paddleX == Min(b.paddleX + PaddleStep, MaxPaddleX))
      && (key == OtherKey ==> r == b)
      && (0 <= b.paddleX <= MaxPaddleX ==> 0 <= r.paddleX <= MaxPaddleX)
      && (Playable(b) ==> Playable(r))
  {
  }

  /** A new game is playable whichever direction the ball starts in: the
      paddle at 300, the ball at (385, 285), three lives, no score. */
  lemma InitialPlayable(coins: Coins)
    ensures var b := Randomized(InitialBoard, coins);
      && Playable(b) && b.isRunning
      && b.paddleX == 300 && b.ballX == 385 && b.ballY == 285
      && b.score == 0 && b.lives == 3 && b.highScore == 0
  {
  }

  /** Right undoes left, and left undoes right, wherever the paddle was not
      stopped by the edge. */
  lemma PaddleMovesUndoEachOther(b: Board)
    ensures PaddleStep <= b.paddleX <= MaxPaddleX ==> KeyPressed(KeyPressed(b, LeftKey), RightKey).paddleX == b.paddleX
    ensures 0 <= b.paddleX <= MaxPaddleX - PaddleStep ==> KeyPressed(KeyPressed(b, RightKey), LeftKey).paddleX == b.paddleX
  {
  }

  // ---------------------------------------------------------------- the ball's velocity

  /** One component set by randomizeBallDirection: 2 or -2 as the coin falls. */
  function Direction(coin: bool): int {
    if coin then BallSpeed else -BallSpeed
  }

  /** randomizeBallDirection. */
  function Randomized(b: Board, coins: Coins): Board {
    b.(ballDX := Direction(coins.coinX), ballDY := Direction(coins.coinY))
  }

  /** randomizeBallDirection gives each component 2 or -2, and nothing but
      the velocity changes. */
  lemma RandomizedFacts(b: Board, coins: Coins)
    ensures var r := Randomized(b, coins);
      && (r.ballDX == 2 || r.ballDX == -2) && (r.ballDY == 2 || r.ballDY == -2)
      && r.(ballDX := b.ballDX, ballDY := b.ballDY) == b
  {
  }

  /** `n *= 1.50` on an int: the product as a double, cast back to int,
      which truncates toward zero. */
  function Scale(n: int): int {
    if n >= 0 then (3 * n) / 2 else -((3 * -n) / 2)
  }

  function Abs(n: int): int {
    if n < 0 then -n else n
  }

  /** Scaling keeps the sign, truncates 1.5 * |n| toward zero, and makes a
      component of at least 2 strictly faster. */
  lemma ScaleFacts(n: int)
    ensures var r := Scale(n);
      && (n > 0 <==> r > 0) && (n < 0 <==> r < 0)
      && 2 * Abs(r) <= 3 * Abs(n) < 2 * Abs(r) + 2
      && Abs(r) >= Abs(n)
      && (Abs(n) >= BallSpeed ==> Abs(r) > Abs(n))
  {
  }

  lemma ScaleExamples()
    ensures Scale(2) == 3 && Scale(-2) == -3 && Scale(3) == 4 && Scale(-3) == -4 && Scale(0) == 0 && Scale(1) == 1
  {
  }

  // ---------------------------------------------------------------- update

  /** ballX += ballDX; ballY += ballDY */
  function Stepped(b: Board): Board {
    b.(ballX := b.ballX + b.ballDX, ballY := b.ballY + b.ballDY)
  }

  /** A ball at or past the left edge, or at or past 770, turns around. */
  function WallBounce(b: Board): Board {
    if b.ballX <= 0 || b.ballX >= Width - BallSize then b.(ballDX := -b.ballDX) else b
  }

  /** resetGame: score 0, three lives, the ball at the centre with a new direction. */
  function Reset(b: Board, coins: Coins): Board {
    Randomized(b.(score := 0, lives := StartLives, ballX := CentreX, ballY := CentreY), coins)
  }

  /** The ball reached the bottom: a life is lost; with none left the game
      stops, a better score is saved as the high score, and the game is
      reset; otherwise the ball goes back to the centre with a new direction. */
  function LoseLife(b: Board, coins: Coins): Frame {
    var l := b.(lives := b.lives - 1);
    if l.lives <= 0 then
      var over := l.(isRunning := false);
      if over.score > over.highScore then
        Frame(Reset(over.(highScore := over.score), coins), Some(HighScoreFile.HighScoreText(over.score)))
      else Frame(Reset(over, coins), None)
    else Frame(Randomized(l.(ballX := CentreX, ballY := CentreY), coins), None)
  }

  /** The ceiling turns the ball around; the bottom costs a life. */
  function CeilingOrFloor(b: Board, coins: Coins): Frame {
    if b.ballY <= 0 then Frame(b.(ballDY := -b.ballDY), None)
    else if b.ballY >= Height - BallSize then LoseLife(b, coins)
    else Frame(b, None)
  }

  /** The ball's box reaches the paddle's top edge and overlaps it across. */
  predicate OnPaddle(b: Board) {
    && b.ballY + BallSize >= Height - PaddleHeight
    && b.ballX + BallSize >= b.paddleX
    && b.ballX <= b.paddleX + PaddleWidth
  }

  /** A ball on the paddle turns around, scores a point and gets 1.5 times faster. */
  function PaddleBounce(b: Board): Board {
    if OnPaddle(b) then
      var turned := b.(ballDY := -b.ballDY, score := b.score + 1);
      turned.(ballDX := Scale(turned.ballDX), ballDY := Scale(turned.ballDY))
    else b
  }

  /** update(), with `coins` for the one randomizeBallDirection a lost life may call. */
  function Update(b: Board, coins: Coins): Frame {
    var walled := WallBounce(Stepped(b));
    var vertical := CeilingOrFloor(walled, coins);
    Frame(PaddleBounce(vertical.board), vertical.written)
  }

  /** runGame: update while the game is running, one pair of coins per
      update, for as many updates as there are pairs. The result holds the
      last text written to the high-score file. */
  function Run(b: Board, coins: seq<Coins>): Frame
    decreases |coins|
  {
    if coins == [] || !b.isRunning then Frame(b, None)
    else
      var f := Update(b, coins[0]);
      After(f.written, Run(f.board, coins[1..]))
  }

  /** The frames of `rest` following a frame that wrote `earlier`: the last
      text written wins. */
  function After(earlier: Option<seq<string>>, rest: Frame): Frame {
    Frame(rest.board, if rest.written.Some? then rest.written else earlier)
  }

  // ---------------------------------------------------------------- what update promises

  /** What one update does, case by case on where the step takes the ball:
      to the ceiling, into the field (where it may meet the paddle), or to
      the bottom with lives left or with the last life. */
  lemma UpdateCases(b: Board, coins: Coins)
    ensures var x := b.ballX + b.ballDX;
      var y := b.ballY + b.ballDY;
      var dx := if x <= 0 || x >= Width - BallSize then -b.ballDX else b.ballDX;
      var r := Update(b, coins).board;
      var hit := OnPaddle(b.(ballX := x, ballY := y));
      && r.paddleX == b.paddleX
      && (y <= 0 ==>
            && r == b.(ballX := x, ballY := y, ballDX := dx, ballDY := -b.ballDY)
            && Update(b, coins).written.None?)
      && (0 < y < Height - BallSize && hit ==>
            && r == b.(ballX := x, ballY := y, ballDX := Scale(dx), ballDY := Scale(-b.ballDY), score := b.score + 1)
            && Update(b, coins).written.None?)
      && (0 < y < Height - BallSize && !hit ==>
            && r == b.(ballX := x, ballY := y, ballDX := dx)
            && Update(b, coins).written.None?)
      && (y >= Height - BallSize && b.lives > 1 ==>
            && r == b.(ballX := CentreX, ballY := CentreY, lives := b.lives - 1,
                       ballDX := Direction(coins.coinX), ballDY := Direction(coins.coinY))
            && Update(b, coins).written.None?)
      && (y >= Height - BallSize && b.lives <= 1 ==>
            && r == b.(ballX := CentreX, ballY := CentreY, lives := StartLives, score := 0,
                       ballDX := Direction(coins.coinX), ballDY := Direction(coins.coinY),
                       highScore := Max(b.highScore, b.score), isRunning := false)
            && (Update(b, coins).written.Some? <==> b.score > b.highScore))
  {
    var walled := WallBounce(Stepped(b));
    assert walled == b.(ballX := b.ballX + b.ballDX, ballY := b.ballY + b.ballDY,
      ballDX := if b.ballX + b.ballDX <= 0 || b.ballX + b.ballDX >= Width - BallSize then -b.ballDX else b.ballDX);
    var vertical := CeilingOrFloor(walled, coins);
    if walled.ballY >= Height - BallSize {
      assert !OnPaddle(vertical.board);
    }
  }

  /** A frame keeps the board playable: lives stay between 1 and 3, the paddle
      where it was, and the ball at least as fast as 2 in each direction. */
  lemma UpdateKeepsPlayable(b: Board, coins: Coins)
    requires Playable(b)
    ensures Playable(Update(b, coins).board)
  {
    var walled := WallBounce(Stepped(b));
    assert Playable(walled);
    var vertical := CeilingOrFloor(walled, coins).board;
    CeilingOrFloorKeepsPlayable(walled, coins);
    PaddleBounceKeepsPlayable(vertical);
  }

  lemma CeilingOrFloorKeepsPlayable(b: Board, coins: Coins)
    requires Playable(b)
    ensures Playable(CeilingOrFloor(b, coins).board)
  {
    if b.ballY >= Height - BallSize {
      assert b.ballY > 0;
      var l := b.(lives := b.lives - 1);
      if l.lives > 0 {
        assert Playable(l.(ballX := CentreX, ballY := CentreY));
      }
    }
  }

  lemma PaddleBounceKeepsPlayable(b: Board)
    requires Playable(b)
    ensures Playable(PaddleBounce(b))
  {
    if OnPaddle(b) {
      ScaleFacts(b.ballDX);
      ScaleFacts(-b.ballDY);
    }
  }

  /** The high score only changes when the last life is lost, only to a
      higher score, and exactly then is it written to the file. */
  lemma UpdateHighScore(b: Board, coins: Coins)
    ensures var f := Update(b, coins);
      && f.board.highScore >= b.highScore
      && (f.board.highScore != b.highScore ==>
            && b.score > b.highScore && f.board.highScore == b.score
            && !f.board.isRunning && b.lives <= 1)
      && (f.written.Some? <==> f.board.highScore != b.highScore)
      && (f.written.Some? ==> f.written.value == HighScoreFile.HighScoreText(f.board.highScore))
  {
    UpdateCases(b, coins);
  }

  /** Reading back the file written at game over gives the new high score. */
  lemma WrittenHighScoreReadsBack(b: Board, coins: Coins, current: int)
    requires InInt32(b.score)
    requires Update(b, coins).written.Some?
    ensures HighScoreFile.LoadHighScore(current, Update(b, coins).written) == Update(b, coins).board.highScore
  {
    UpdateHighScore(b, coins);
    HighScoreFile.HighScoreRoundTrip(b.score, current);
  }

  /** A running game stops only by losing its last life, and then it starts
      over with score 0 and three lives. */
  lemma UpdateStopsOnlyAtGameOver(b: Board, coins: Coins)
    ensures var r := Update(b, coins).board;
      && (r.isRunning <==> b.isRunning && (b.ballY + b.ballDY < Height - BallSize || b.lives > 1))
      && (r.isRunning != b.isRunning ==> r.score == 0 && r.lives == StartLives)
  {
    UpdateCases(b, coins);
  }

  /** The paddle does not check which way the ball moves: a ball that just
      bounced can still be on the paddle on the next frame and score again. */
  lemma PaddleContactScoresRepeatedly()
    ensures var b := Board(PaddleStartX, 400, 530, 2, 2, 0, StartLives, 0, true);
      var coins := Coins(true, true);
      var once := Update(b, coins).board;
      var twice := Update(once, coins).board;
      && once.score == 1 && once.ballDY == -3
      && twice.score == 2 && twice.ballDY == 4
  {
    var b := Board(PaddleStartX, 400, 530, 2, 2, 0, StartLives, 0, true);
    var coins := Coins(true, true);
    UpdateCases(b, coins);
    var once := Update(b, coins).board;
    assert once == b.(ballX := 402, ballY := 532, ballDX := 3, ballDY := -3, score := 1);
    UpdateCases(once, coins);
  }

  // ---------------------------------------------------------------- runGame

  /** Once the game has stopped, no further update runs. */
  lemma RunOfStoppedGame(b: Board, coins: seq<Coins>)
    requires !b.isRunning
    ensures Run(b, coins) == Frame(b, None)
  {
  }

  /** The update that loses the last life is the last one the loop runs. */
  lemma GameOverEndsRun(b: Board, c: Coins, more: seq<Coins>)
    requires b.isRunning && !Update(b, c).board.isRunning
    ensures Run(b, [c] + more) == Update(b, c)
  {
    assert ([c] + more)[0] == c && ([c] + more)[1..] == more;
    RunOfStoppedGame(Update(b, c).board, more);
  }

  /** Every board the loop reaches is playable, the paddle never moves
      during it, and the high score never falls. */
  lemma {:induction false} RunKeepsPlayable(b: Board, coins: seq<Coins>)
    requires Playable(b)
    ensures Playable(Run(b, coins).board)
    ensures Run(b, coins).board.paddleX == b.paddleX
    ensures Run(b, coins).board.highScore >= b.highScore
    decreases |coins|
  {
    if coins != [] && b.isRunning {
      var f := Update(b, coins[0]);
      UpdateKeepsPlayable(b, coins[0]);
      UpdateCases(b, coins[0]);
      UpdateHighScore(b, coins[0]);
      RunKeepsPlayable(f.board, coins[1..]);
    }
  }
}
