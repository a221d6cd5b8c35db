/** The three entities of the brick-breaking game (jogo.py): the paddle and
    the ball, objects whose fields the game updates in place, and the brick
    record.  Each class comes with a value snapshot (`PaddleState`,
    `BallState`) and a function that specifies its update rule, so that the
    rules can be reasoned about in lemmas. */
module Entities {

  const SCREEN_WIDTH: int := 800
  const SCREEN_HEIGHT: int := 600

  function Max(a: int, b: int): int { if a >= b then a else b }

  function Abs(r: real): real { if r >= 0.0 then r else -r }

  // ---------------------------------------------------------------- Paddle

  const PADDLE_WIDTH: int := 100
  const PADDLE_HEIGHT: int := 20
  const PADDLE_SPEED: int := 8

  datatype Direction = Left | Right

  datatype PaddleState = PaddleState(x: int, y: int, width: int, height: int, speed: int)

  /** A new paddle: horizontally centred, 50 pixels above the bottom edge. */
  function FreshPaddle(): PaddleState {
    PaddleState(SCREEN_WIDTH / 2 - PADDLE_WIDTH / 2, SCREEN_HEIGHT - 50,
                PADDLE_WIDTH, PADDLE_HEIGHT, PADDLE_SPEED)
  }

  /** One paddle step.  The edge test is made before the step and nothing is
      clamped afterwards. */
  function MovePaddle(p: PaddleState, d: Direction): PaddleState {
    if d == Left && p.x > 0 then p.(x := p.x - p.speed)
    else if d == Right && p.x < SCREEN_WIDTH - p.width then p.(x := p.x + p.speed)
    else p
  }

  /** The band the paddle really stays in: an edge can be overshot by less
      than one step, so `0 <= x` is NOT an invariant. */
  predicate InBand(p: PaddleState) {
    -p.speed < p.x < SCREEN_WIDTH - p.width + p.speed
  }

  /** A move changes only `x`, by exactly `-speed`, `0` or `+speed`; it goes
      left exactly when asked to and `x > 0`, right exactly when asked to and
      `x < SCREEN_WIDTH - width`. */
  lemma MovePaddleStep(p: PaddleState, d: Direction)
    requires p.speed > 0
    ensures var r := MovePaddle(p, d);
      && r == p.(x := r.x)
      && (r.x == p.x - p.speed || r.x == p.x || r.x == p.x + p.speed)
      && (r.x < p.x <==> d == Left && p.x > 0)
      && (r.x > p.x <==> d == Right && p.x < SCREEN_WIDTH - p.width)
  {
  }

  lemma MovePaddleKeepsBand(p: PaddleState, d: Direction)
    requires p.speed > 0 && InBand(p)
    ensures InBand(MovePaddle(p, d))
  {
  }

  /** `n` moves in the same direction, as when a key is held for `n` frames. */
  function MoveRepeat(p: PaddleState, d: Direction, n: nat): PaddleState {
    if n == 0 then p else MovePaddle(MoveRepeat(p, d, n - 1), d)
  }

  /** While the paddle is still right of the edge, held left moves go down by
      exactly one step each. */
  lemma {:induction false} MoveLeftRun(p: PaddleState, n: nat)
    requires p.speed > 0
    requires n == 0 || p.x > p.speed * (n - 1)
    ensures MoveRepeat(p, Left, n) == p.(x := p.x - p.speed * n)
  {
    if n > 0 {
      assert n - 1 == 0 || p.x > p.speed * (n - 2) by {
        if n > 1 {
          assert p.speed * (n - 1) == p.speed * (n - 2) + p.speed;
        }
      }
      MoveLeftRun(p, n - 1);
      assert p.x - p.speed * (n - 1) > 0;
      assert p.x - p.speed * (n - 1) - p.speed == p.x - p.speed * n;
    }
  }

  /** From the start position, each held left move takes 8 off x until the
      44th, which overshoots the edge to x = -2; the paddle then stays there. */
  lemma {:induction false} PaddleOvershootsLeftEdge(n: nat)
    ensures n <= 44 ==> MoveRepeat(FreshPaddle(), Left, n).x == 350 - 8 * n
    ensures n >= 44 ==> MoveRepeat(FreshPaddle(), Left, n).x == -2
  {
    if n <= 44 {
      MoveLeftRun(FreshPaddle(), n);
    } else {
      PaddleOvershootsLeftEdge(n - 1);
    }
  }

  class Paddle {
    var x: int
    var y: int
    var width: int
    var height: int
    var speed: int

    function State(): PaddleState
      reads this
    {
      PaddleState(x, y, width, height, speed)
    }

    constructor ()
      ensures State() == FreshPaddle()
    {
      width := PADDLE_WIDTH;
      height := PADDLE_HEIGHT;
      x := SCREEN_WIDTH / 2 - PADDLE_WIDTH / 2;
      y := SCREEN_HEIGHT - 50;
      speed := PADDLE_SPEED;
    }

    method Move(d: Direction)
      modifies this`x
      ensures State() == MovePaddle(old(State()), d)
    {
      if d == Left && x > 0 {
        x := x - speed;
      }
      if d == Right && x < SCREEN_WIDTH - width {
        x := x + speed;
      }
    }
  }

  // ------------------------------------------------------------------ Ball

  const BALL_RADIUS: int := 10
  const BALL_SPEED: int := 5

  /** The ball's horizontal coordinates are reals: after a paddle bounce the
      horizontal velocity is a fraction.  The vertical ones stay integers. */
  datatype BallState = BallState(x: real, y: int, dx: real, dy: int, radius: int)

  /** The horizontal serve velocity for one outcome of the coin toss. */
  function ServeDx(towardRight: bool): real {
    if towardRight then BALL_SPEED as real else -(BALL_SPEED as real)
  }

  /** A new ball: at the screen centre, moving up, sideways as the coin says. */
  function FreshBall(towardRight: bool): BallState {
    BallState((SCREEN_WIDTH / 2) as real, SCREEN_HEIGHT / 2, ServeDx(towardRight), -BALL_SPEED, BALL_RADIUS)
  }

  /** Resetting keeps the radius and serves the ball again from the centre. */
  function ResetBall(b: BallState, towardRight: bool): BallState {
    b.(x := (SCREEN_WIDTH / 2) as real, y := SCREEN_HEIGHT / 2, dx := ServeDx(towardRight), dy := -BALL_SPEED)
  }

  /** Whether a ball centred at `x` touches the left or the right wall. */
  predicate AtSideWall(x: real, radius: int) {
    x <= radius as real || x >= (SCREEN_WIDTH - radius) as real
  }

  /** One frame of ball motion: advance by the velocity, then reflect off the
      side walls and the top wall. */
  function MoveBall(b: BallState): BallState {
    var x := b.x + b.dx;
    var y := b.y + b.dy;
    BallState(x, y,
              if AtSideWall(x, b.radius) then -b.dx else b.dx,
              if y <= b.radius then -b.dy else b.dy,
              b.radius)
  }

  /** The ball advances by its velocity; a velocity component changes sign
      exactly when the new position touches the matching wall, keeps its
      magnitude, and nothing reflects at the bottom edge. */
  lemma MoveBallReflects(b: BallState)
    ensures var r := MoveBall(b);
      && r.x == b.x + b.dx && r.y == b.y + b.dy && r.radius == b.radius
      && Abs(r.dx) == Abs(b.dx) && (r.dy == b.dy || r.dy == -b.dy)
      && (b.dx != 0.0 ==> (r.dx == -b.dx <==> AtSideWall(r.x, b.radius)))
      && (b.dy != 0 ==> (r.dy == -b.dy <==> r.y <= b.radius))
      && (r.y > b.radius ==> r.dy == b.dy)
  {
  }

  /** A reset puts the ball at (400, 300) moving up at 5 and sideways at 5
      in either direction, whatever it was doing before. */
  lemma ResetBallServes(b: BallState, towardRight: bool)
    ensures var r := ResetBall(b, towardRight);
      && r.x == 400.0 && r.y == 300 && r.dy == -5 && r.radius == b.radius
      && (r.dx == 5.0 || r.dx == -5.0) && (r.dx > 0.0 <==> towardRight)
  {
  }

  class Ball {
    var x: real
    var y: int
    var dx: real
    var dy: int
    var radius: int

    function State(): BallState
      reads this
    {
      BallState(x, y, dx, dy, radius)
    }

    constructor (towardRight: bool)
      ensures State() == FreshBall(towardRight)
    {
      radius := BALL_RADIUS;
      x := (SCREEN_WIDTH / 2) as real;
      y := SCREEN_HEIGHT / 2;
      dx := ServeDx(towardRight);
      dy := -BALL_SPEED;
    }

    method Move()
      modifies this
      ensures State() == MoveBall(old(State()))
    {
      x := x + dx;
      y := y + dy;
      if x <= radius as real || x >= (SCREEN_WIDTH - radius) as real {
        dx := -dx;
      }
      if y <= radius {
        dy := -dy;
      }
    }

    method Reset(towardRight: bool)
      modifies this
      ensures State() == ResetBall(old(State()), towardRight)
    {
      x := (SCREEN_WIDTH / 2) as real;
      y := SCREEN_HEIGHT / 2;
      dx := ServeDx(towardRight);
      dy := -BALL_SPEED;
    }
  }

  // ----------------------------------------------------------------- Brick

  const BRICK_WIDTH: int := 80
  const BRICK_HEIGHT: int := 30

  datatype Color = Red | Orange | Yellow | Green | Blue | Purple

  datatype Brick = Brick(x: int, y: int, width: int, height: int, color: Color, points: int, visible: bool)

  /** A new brick is 80 x 30 and visible. */
  function NewBrick(x: int, y: int, color: Color, points: int): Brick {
    Brick(x, y, BRICK_WIDTH, BRICK_HEIGHT, color, points, true)
  }
}
