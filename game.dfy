/** The game session object of jogo.py (class Game, its update and reset,
    and the key handling of the main loop).  Every method is proved to
    change the session exactly as the matching function of `Engine` says.
    The constructor and the three entry points of the main loop (`Update`,
    `KeyDown`, `HandleHeldKeys`) also keep the session invariant
    `Engine.Inv`; `ResetGame` alone does not, since it leaves a game-over
    state with 3 lives, and `KeyDown` sets the state right after it. */
module BrickBreak {
  import opened Entities
  import opened Grid
  import opened Ranking
  import opened Engine

  class Game {
    var paddle: Paddle
    var ball: Ball
    var bricks: seq<Brick>
    var score: int
    var lives: int
    var level: int
    var state: GameState
    var playerName: string
    /** The ranking file on disk, which outlives the session. */
    var rankingFile: RankingFile

    /** The whole session as a value. */
    function Snapshot(): Session
      reads this, paddle, ball
    {
      Session(paddle.State(), ball.State(), bricks, score, lives, level, state, playerName, rankingFile)
    }

    ghost predicate Valid()
      reads this, paddle, ball
    {
      Inv(Snapshot())
    }

    /** A new game opens in the menu; `file` is what the ranking file holds
        when the program starts. */
    constructor (file: RankingFile, towardRight: bool)
      ensures Snapshot() == InitialSession(file, towardRight)
      ensures Valid()
    {
      paddle := new Paddle();
      ball := new Ball(towardRight);
      bricks := [];
      score := 0;
      lives := INITIAL_LIVES;
      level := 1;
      state := Menu;
      playerName := "";
      rankingFile := file;
      new;
      CreateBricks();
      InitialInv(file, towardRight);
    }

    /** Lay a fresh grid of 6 rows of 9 bricks, row by row. */
    method CreateBricks()
      modifies this`bricks
      ensures bricks == FreshGrid()
    {
      bricks := [];
      for row := 0 to 6
        invariant |bricks| == row * 9
        invariant forall i :: 0 <= i < |bricks| ==> bricks[i] == GridBrick(i)
      {
        for col := 0 to 9
          invariant |bricks| == row * 9 + col
          invariant forall i :: 0 <= i < |bricks| ==> bricks[i] == GridBrick(i)
        {
          var brickX := col * 85 + 20;
          var brickY := row * 35 + 50;
          assert (row * 9 + col) / 9 == row && (row * 9 + col) % 9 == col;
          bricks := bricks + [NewBrick(brickX, brickY, ROW_COLORS[row], ROW_POINTS[row])];
        }
      }
    }

    /** The ball is moving: bounce it off the paddle, let it break at most
        one brick, take a life if it fell, and start the next level if the
        grid is empty.  The four steps are the helper methods below. */
    method CheckCollisions(lifeCoin: bool, levelCoin: bool)
      requires WellFormed(Snapshot())
      modifies this, paddle, ball
      ensures paddle == old(paddle) && ball == old(ball)
      ensures Snapshot() == Collide(old(Snapshot()), lifeCoin, levelCoin)
    {
      BouncePaddle();
      HitFirstBrick();
      CheckFall(lifeCoin);
      CheckLevel(levelCoin);
    }

    /** Step 1: a ball falling onto the paddle leaves at an angle set by
        where it touched. */
    method BouncePaddle()
      requires paddle.width > 0
      modifies ball
      ensures Snapshot() == PaddlePhase(old(Snapshot()))
    {
      if ball.y + ball.radius >= paddle.y && ball.x >= paddle.x as real &&
         ball.x <= (paddle.x + paddle.width) as real && ball.dy > 0
      {
        var relativeIntersectX := (paddle.x as real + paddle.width as real / 2.0) - ball.x;
        var normalizedRelativeIntersectX := relativeIntersectX / (paddle.width as real / 2.0);
        var bounceAngle := normalizedRelativeIntersectX * BOUNCE_SCALE;
        ball.dx := -bounceAngle * BOUNCE_SPEED;
        ball.dy := -ball.dy;
      }
    }

    /** Step 2: scan the bricks in order and break the first visible one the
        ball overlaps, if any. */
    method HitFirstBrick()
      modifies this`bricks, this`score, ball
      ensures Snapshot() == BrickPhase(old(Snapshot()))
    {
      ghost var s0 := Snapshot();
      var i := 0;
      while i < |bricks|
        invariant 0 <= i <= |bricks|
        invariant Snapshot() == s0
        invariant forall k :: 0 <= k < i ==> !Hittable(s0.ball, s0.bricks[k])
      {
        var brick := bricks[i];
        if brick.visible {
          if ball.x + ball.radius as real >= brick.x as real &&
             ball.x - ball.radius as real <= (brick.x + brick.width) as real &&
             ball.y + ball.radius >= brick.y &&
             ball.y - ball.radius <= brick.y + brick.height
          {
            bricks := bricks[i := brick.(visible := false)];
            score := score + brick.points;
            if ball.x < brick.x as real || ball.x > (brick.x + brick.width) as real {
              ball.dx := -ball.dx;
            } else {
              ball.dy := -ball.dy;
            }
            assert FirstHit(s0.ball, s0.bricks) == Some(i);
            return;
          }
        }
        i := i + 1;
      }
    }

    /** Step 3: a ball below the bottom edge costs a life; the last life ends
        the game and saves the score. */
    method CheckFall(towardRight: bool)
      modifies this`lives, this`state, this`rankingFile, ball
      ensures Snapshot() == FallPhase(old(Snapshot()), towardRight)
    {
      if ball.y > SCREEN_HEIGHT {
        lives := lives - 1;
        if lives > 0 {
          ball.Reset(towardRight);
        } else {
          state := GameOver;
          SaveScore();
        }
      }
    }

    /** Step 4: once no brick is visible, the next level starts with a fresh
        grid, a served ball and a paddle 10 pixels narrower, but never
        narrower than 50. */
    method CheckLevel(towardRight: bool)
      modifies this`level, this`bricks, ball, paddle`width
      ensures Snapshot() == LevelPhase(old(Snapshot()), towardRight)
    {
      if Cleared(bricks) {
        level := level + 1;
        CreateBricks();
        ball.Reset(towardRight);
        paddle.width := Max(MIN_PADDLE_WIDTH, paddle.width - PADDLE_SHRINK);
      }
    }

    /** Add this game's score to the ranking file. */
    method SaveScore()
      modifies this`rankingFile
      ensures rankingFile == Saved(Save(old(LoadRanking()), Entry(playerName, score)))
    {
      var ranking := LoadRanking();
      rankingFile := Saved(Save(ranking, Entry(playerName, score)));
    }

    /** Reading the ranking file: an absent file is an empty ranking. */
    function LoadRanking(): seq<Entry>
      reads this
    {
      Load(rankingFile)
    }

    /** One frame of the simulation. */
    method Update(lifeCoin: bool, levelCoin: bool)
      requires Valid()
      modifies this, paddle, ball
      ensures paddle == old(paddle) && ball == old(ball)
      ensures Snapshot() == Tick(old(Snapshot()), lifeCoin, levelCoin)
      ensures Valid()
    {
      ghost var s0 := Snapshot();
      if state == Playing {
        ball.Move();
        CheckCollisions(lifeCoin, levelCoin);
      }
      TickInv(s0, lifeCoin, levelCoin);
    }

    /** Start a new session: new paddle, ball and grid, counters reset. */
    method ResetGame(towardRight: bool)
      modifies this
      ensures fresh(paddle) && fresh(ball)
      ensures Snapshot() == ResetSession(old(Snapshot()), towardRight)
    {
      paddle := new Paddle();
      ball := new Ball(towardRight);
      bricks := [];
      score := 0;
      lives := INITIAL_LIVES;
      level := 1;
      CreateBricks();
    }

    /** A key-down event of the main loop. */
    method KeyDown(k: Key, towardRight: bool)
      requires Valid()
      modifies this
      ensures Snapshot() == KeyPress(old(Snapshot()), k, towardRight)
      ensures Valid()
    {
      ghost var s0 := Snapshot();
      if state == Menu {
        if k == Space {
          state := Playing;
        }
      } else if state == Playing {
        if k == Escape {
          state := Menu;
        }
      } else if state == GameOver {
        if k == KeyR {
          ResetGame(towardRight);
          state := Playing;
        }
        if k == KeyM {
          ResetGame(towardRight);
          state := Menu;
        }
      }
      KeyPressInv(s0, k, towardRight);
    }

    /** The arrow keys held during a frame. */
    method HandleHeldKeys(left: bool, right: bool)
      requires Valid()
      modifies paddle
      ensures Snapshot() == HeldKeys(old(Snapshot()), left, right)
      ensures Valid()
    {
      ghost var s0 := Snapshot();
      if state == Playing {
        if left {
          paddle.Move(Left);
        }
        if right {
          paddle.Move(Right);
        }
      }
      HeldKeysInv(s0, left, right);
    }
  }
}
