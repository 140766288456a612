/** BrickBreakerGame as an object whose fields update() and keyPressed
    change step by step, as in BrickBreakerGame.java. Every method is proved
    to take the game from State() to the value the matching function of
    BrickBreakerRules gives. */
module BrickBreaker {
  import opened JavaText
  import opened BrickBreakerRules
  import HighScoreFile

  class BrickBreakerGame {
    var paddleX: int
    var ballX: int
    var ballY: int
    var ballDX: int
    var ballDY: int
    var score: int
    var lives: int
    var highScore: int
    var isRunning: bool

    ghost function State(): Board
      reads this
    {
      Board(paddleX, ballX, ballY, ballDX, ballDY, score, lives, highScore, isRunning)
    }

    ghost predicate Valid()
      reads this
    {
      Playable(State())
    }

    /** The field initialisers, then randomizeBallDirection with `coins`. */
    constructor (coins: Coins)
      ensures Valid() && isRunning
      ensures State() == Randomized(InitialBoard, coins)
    {
      paddleX := Width / 2 - PaddleWidth / 2;
      ballX := Width / 2 - BallSize / 2;
      ballY := Height / 2 - BallSize / 2;
      ballDX := 2;
      ballDY := -2;
      score := 0;
      lives := 3;
      highScore := 0;
      isRunning := true;
      new;
      RandomizeBallDirection(coins);
      InitialPlayable(coins);
    }

    /** keyPressed: the paddle arithmetic for the left and right arrow keys. */
    method KeyPressed(key: Key)
      requires Valid()
      modifies this`paddleX
      ensures Valid()
      ensures State() == BrickBreakerRules.KeyPressed(old(State()), key)
    {
      if key == LeftKey {
        paddleX := paddleX - PaddleStep;
        if paddleX < 0 {
          paddleX := 0;
        }
      } else if key == RightKey {
        paddleX := paddleX + PaddleStep;
        if paddleX > Width - PaddleWidth {
          paddleX := Width - PaddleWidth;
        }
      }
    }

    /** update(): `coins` are the two booleans randomizeBallDirection draws
        if a life is lost; `written` is what saveHighScore wrote, if it ran. */
    method Update(coins: Coins) returns (written: Option<seq<string>>)
      requires Valid()
      modifies this
      ensures Valid()
      ensures Frame(State(), written) == BrickBreakerRules.Update(old(State()), coins)
    {
      UpdateKeepsPlayable(State(), coins);
      MoveBall();
      written := HitCeilingOrFloor(coins);
      CheckPaddle();
    }

    /** The first lines of update(): the ball steps and bounces off the side walls. */
    method MoveBall()
      modifies this`ballX, this`ballY, this`ballDX
      ensures State() == WallBounce(Stepped(old(State())))
    {
      ballX := ballX + ballDX;
      ballY := ballY + ballDY;
      if ballX <= 0 || ballX >= Width - BallSize {
        ballDX := -ballDX;
      }
    }

    /** The ceiling and bottom checks of update(). */
    method HitCeilingOrFloor(coins: Coins) returns (written: Option<seq<string>>)
      modifies this
      ensures Frame(State(), written) == CeilingOrFloor(old(State()), coins)
    {
      written := None;
      if ballY <= 0 {
        ballDY := -ballDY;
      } else if ballY >= Height - BallSize {
        written := LoseLife(coins);
      }
    }

    /** The branch of update() for a ball at the bottom. */
    method LoseLife(coins: Coins) returns (written: Option<seq<string>>)
      modifies this
      ensures Frame(State(), written) == BrickBreakerRules.LoseLife(old(State()), coins)
    {
      written := None;
      lives := lives - 1;
      if lives <= 0 {
        isRunning := false;
        if score > highScore {
          highScore := score;
          var text := SaveHighScore();
          written := Some(text);
        }
        ResetGame(coins);
      } else {
        ballX := Width / 2 - BallSize / 2;
        ballY := Height / 2 - BallSize / 2;
        RandomizeBallDirection(coins);
      }
    }

    /** The paddle check at the end of update(). */
    method CheckPaddle()
      modifies this`ballDX, this`ballDY, this`score
      ensures State() == PaddleBounce(old(State()))
    {
      if ballY + BallSize >= Height - PaddleHeight && ballX + BallSize >= paddleX && ballX <= paddleX + PaddleWidth {
        ballDY := -ballDY;
        score := score + 1;
        ballDX := Scale(ballDX);
        ballDY := Scale(ballDY);
      }
    }

    /** resetGame. */
    method ResetGame(coins: Coins)
      modifies this`score, this`lives, this`ballX, this`ballY, this`ballDX, this`ballDY
      ensures State() == Reset(old(State()), coins)
    {
      score := 0;
      lives := 3;
      ballX := Width / 2 - BallSize / 2;
      ballY := Height / 2 - BallSize / 2;
      RandomizeBallDirection(coins);
    }

    /** randomizeBallDirection, with the two answers of nextBoolean as `coins`. */
    method RandomizeBallDirection(coins: Coins)
      modifies this`ballDX, this`ballDY
      ensures State() == Randomized(old(State()), coins)
    {
      ballDX := if coins.coinX then 2 else -2;
      ballDY := if coins.coinY then 2 else -2;
    }

    /** saveHighScore: the text written to the high-score file. */
    method SaveHighScore() returns (text: seq<string>)
      ensures text == HighScoreFile.HighScoreText(highScore)
      ensures HighScoreFile.LoadHighScore(0, Some(text)) == (if InInt32(highScore) then highScore else 0)
    {
      text := [IntToString(highScore)];
      ParseIntOfIntToString(highScore);
    }

    /** loadHighScore, given the high-score file's lines (None when it cannot be read). */
    method LoadHighScore(file: Option<seq<string>>)
      requires Valid()
      modifies this`highScore
      ensures Valid()
      ensures State() == old(State()).(highScore := HighScoreFile.LoadHighScore(old(highScore), file))
    {
      if file.Some? && |file.value| > 0 && file.value[0] != "" {
        var parsed := ParseInt(file.value[0]);
        if parsed.Some? {
          highScore := parsed.value;
        }
      }
    }

    /** runGame: update while the game runs, one pair of coins per update,
        for at most |coins| updates; `written` is the last text saved. */
    method RunGame(coins: seq<Coins>) returns (written: Option<seq<string>>)
      requires Valid()
      modifies this
      ensures Valid()
      ensures Frame(State(), written) == Run(old(State()), coins)
    {
      written := None;
      var i := 0;
      while isRunning && i < |coins|
        invariant 0 <= i <= |coins|
        invariant Valid()
        invariant Run(old(State()), coins) == After(written, Run(State(), coins[i..]))
        decreases |coins| - i
      {
        ghost var before := State();
        assert coins[i..][0] == coins[i] && coins[i..][1..] == coins[i + 1..];
        var saved := Update(coins[i]);
        assert Run(before, coins[i..]) == After(saved, Run(State(), coins[i + 1..]));
        if saved.Some? {
          written := saved;
        }
        i := i + 1;
      }
    }
  }
}
