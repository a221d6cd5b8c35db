/** The game simulation of jogo.py as functions on a value snapshot of the
    whole session: the four steps of one collision check, one frame of
    play, the held arrow keys, and the key-press state machine of the main
    loop.  The class `BrickBreak.Game` is proved to follow these functions. */
module Engine {
  import opened Entities
  import opened Grid
  import opened Ranking

  const INITIAL_LIVES: int := 3
  const MIN_PADDLE_WIDTH: int := 50
  const PADDLE_SHRINK: int := 10
  const BOUNCE_SCALE: real := 0.8
  const BOUNCE_SPEED: real := 7.0

  datatype Option<T> = None | Some(value: T)

  datatype GameState = Menu | Playing | GameOver

  /** Everything a session holds, as one value. */
  datatype Session = Session(paddle: PaddleState, ball: BallState, bricks: seq<Brick>,
                             score: int, lives: int, level: int, state: GameState,
                             playerName: string, rankingFile: RankingFile)

  // ------------------------------------------------- 1. bounce off the paddle

  /** The ball's lower edge reaches the paddle's top, its centre lies within
      the paddle's span, and it is moving down. */
  predicate PaddleContact(p: PaddleState, b: BallState) {
    b.y + b.radius >= p.y && b.x >= p.x as real && b.x <= (p.x + p.width) as real && b.dy > 0
  }

  /** The new horizontal velocity after a paddle bounce: the farther from the
      paddle's centre, the steeper. */
  function BounceDx(p: PaddleState, b: BallState): real
    requires p.width > 0
  {
    var half := p.width as real / 2.0;
    var relativeIntersect := (p.x as real + half) - b.x;
    var normalized := relativeIntersect / half;
    var bounceAngle := normalized * BOUNCE_SCALE;
    -bounceAngle * BOUNCE_SPEED
  }

  function PaddlePhase(s: Session): Session
    requires s.paddle.width > 0
  {
    if PaddleContact(s.paddle, s.ball) then
      s.(ball := s.ball.(dx := BounceDx(s.paddle, s.ball), dy := -s.ball.dy))
    else s
  }

  // ---------------------------------------------------- 2. hit the first brick

  /** The ball's bounding box (centre plus or minus the radius) meets the
      brick's closed rectangle. */
  predicate Overlaps(b: BallState, k: Brick) {
    b.x + b.radius as real >= k.x as real && b.x - b.radius as real <= (k.x + k.width) as real &&
    b.y + b.radius >= k.y && b.y - b.radius <= k.y + k.height
  }

  predicate Hittable(b: BallState, k: Brick) {
    k.visible && Overlaps(b, k)
  }

  /** The index of the first visible brick, in list order, that the ball
      overlaps. */
  function FirstHit(b: BallState, bricks: seq<Brick>): (r: Option<nat>)
    ensures r.Some? ==> r.value < |bricks| && Hittable(b, bricks[r.value])
    ensures r.Some? ==> forall j :: 0 <= j < r.value ==> !Hittable(b, bricks[j])
    ensures r.None? ==> forall j :: 0 <= j < |bricks| ==> !Hittable(b, bricks[j])
  {
    if bricks == [] then None
    else if Hittable(b, bricks[0]) then Some(0)
    else match FirstHit(b, bricks[1..])
      case None => None
      case Some(i) => Some(i + 1)
  }

  /** The ball's centre lies left or right of the brick: a side hit. */
  predicate SideHit(b: BallState, k: Brick) {
    b.x < k.x as real || b.x > (k.x + k.width) as real
  }

  function Deflect(b: BallState, k: Brick): BallState {
    if SideHit(b, k) then b.(dx := -b.dx) else b.(dy := -b.dy)
  }

  function BrickPhase(s: Session): Session {
    match FirstHit(s.ball, s.bricks)
    case None => s
    case Some(i) =>
      s.(bricks := s.bricks[i := s.bricks[i].(visible := false)],
         score := s.score + s.bricks[i].points,
         ball := Deflect(s.ball, s.bricks[i]))
  }

  // --------------------------------------------------- 3. fall past the bottom

  /** The entry a game that has just ended adds to the ranking. */
  function FinalEntry(s: Session): Entry {
    Entry(s.playerName, s.score)
  }

  function FallPhase(s: Session, towardRight: bool): Session {
    if s.ball.y > SCREEN_HEIGHT then
      var lives := s.lives - 1;
      if lives > 0 then s.(lives := lives, ball := ResetBall(s.ball, towardRight))
      else s.(lives := lives, state := GameOver,
              rankingFile := Saved(Save(Load(s.rankingFile), FinalEntry(s))))
    else s
  }

  // ------------------------------------------------------ 4. level complete

  function LevelPhase(s: Session, towardRight: bool): Session {
    if Cleared(s.bricks) then
      s.(level := s.level + 1, bricks := FreshGrid(), ball := ResetBall(s.ball, towardRight),
         paddle := s.paddle.(width := Max(MIN_PADDLE_WIDTH, s.paddle.width - PADDLE_SHRINK)))
    else s
  }

  /** One collision check: the four steps, always in this order.  Each ball
      reset tosses its own coin. */
  function Collide(s: Session, lifeCoin: bool, levelCoin: bool): Session
    requires s.paddle.width > 0
  {
    LevelPhase(FallPhase(BrickPhase(PaddlePhase(s)), lifeCoin), levelCoin)
  }

  /** One frame of the simulation: only while playing, move the ball, then
      check collisions. */
  function Tick(s: Session, lifeCoin: bool, levelCoin: bool): Session
    requires s.paddle.width > 0
  {
    if s.state == Playing then Collide(s.(ball := MoveBall(s.ball)), lifeCoin, levelCoin) else s
  }

  /** The arrow keys held during a frame move the paddle, left first, and
      only while playing. */
  function HeldKeys(s: Session, left: bool, right: bool): Session {
    if s.state == Playing then
      var p := if left then MovePaddle(s.paddle, Left) else s.paddle;
      s.(paddle := if right then MovePaddle(p, Right) else p)
    else s
  }

  // ------------------------------------------------------ session lifecycle

  /** The session a new game starts in, reading the ranking file left by
      earlier sessions. */
  function InitialSession(file: RankingFile, towardRight: bool): Session {
    Session(FreshPaddle(), FreshBall(towardRight), FreshGrid(), 0, INITIAL_LIVES, 1, Menu, "", file)
  }

  /** A full reset: new paddle, ball and grid, counters back to their start
      values; the state, the player name and the ranking file are kept. */
  function ResetSession(s: Session, towardRight: bool): Session {
    s.(paddle := FreshPaddle(), ball := FreshBall(towardRight), bricks := FreshGrid(),
       score := 0, lives := INITIAL_LIVES, level := 1)
  }

  datatype Key = Space | Escape | KeyR | KeyM | OtherKey

  /** A key press, as the main loop handles it. */
  function KeyPress(s: Session, k: Key, towardRight: bool): Session {
    match s.state
    case Menu => if k == Space then s.(state := Playing) else s
    case Playing => if k == Escape then s.(state := Menu) else s
    case GameOver =>
      if k == KeyR then ResetSession(s, towardRight).(state := Playing)
      else if k == KeyM then ResetSession(s, towardRight).(state := Menu)
      else s
  }

  // -------------------------------------------------------------- invariants

  /** The shape every session keeps: paddle and ball dimensions, the
      paddle's width between 50 and 100 and its x in its band, a vertical ball
      speed of 5, and a grid that differs from a fresh one only in which
      bricks are still visible. */
  ghost predicate WellFormed(s: Session) {
    && s.paddle.y == SCREEN_HEIGHT - 50 && s.paddle.height == PADDLE_HEIGHT
    && s.paddle.speed == PADDLE_SPEED
    && MIN_PADDLE_WIDTH <= s.paddle.width <= PADDLE_WIDTH && InBand(s.paddle)
    && s.ball.radius == BALL_RADIUS && (s.ball.dy == BALL_SPEED || s.ball.dy == -BALL_SPEED)
    && GridShaped(s.bricks)
  }

  /** The counters: the game is over exactly when no life is left. */
  ghost predicate Counters(s: Session) {
    s.score >= 0 && s.level >= 1 && 0 <= s.lives <= INITIAL_LIVES &&
    (s.state == GameOver <==> s.lives == 0)
  }

  ghost predicate Inv(s: Session) {
    WellFormed(s) && Counters(s)
  }

  // ------------------------------------------------------ lemmas: the steps

  /** The paddle bounce fires only on a ball moving down, then reverses its
      vertical direction and sets a new horizontal speed; it never moves the
      ball and changes nothing else. */
  lemma PaddleBounce(s: Session)
    requires s.paddle.width > 0
    ensures var r := PaddlePhase(s);
      && r == s.(ball := r.ball)
      && r.ball == s.ball.(dx := r.ball.dx, dy := r.ball.dy)
      && (r.ball != s.ball ==> s.ball.dy > 0 && r.ball.dy == -s.ball.dy)
      && (PaddleContact(s.paddle, s.ball) <==> r.ball.dy == -s.ball.dy && s.ball.dy > 0)
  {
  }

  /** A hit left of the paddle's centre sends the ball left, right of it
      right, and dead centre straight up; within the paddle's span the
      horizontal speed is at most 0.8 * 7 = 5.6. */
  lemma BounceDirection(p: PaddleState, b: BallState)
    requires p.width > 0
    ensures var centre := p.x as real + p.width as real / 2.0;
      && (b.x < centre ==> BounceDx(p, b) < 0.0)
      && (b.x > centre ==> BounceDx(p, b) > 0.0)
      && (b.x == centre ==> BounceDx(p, b) == 0.0)
      && (p.x as real <= b.x <= (p.x + p.width) as real ==> -5.6 <= BounceDx(p, b) <= 5.6)
  {
    var half := p.width as real / 2.0;
    var rel := (p.x as real + half) - b.x;
    assert BounceDx(p, b) == -(rel / half) * 5.6;
    if p.x as real <= b.x <= (p.x + p.width) as real {
      assert -half <= rel <= half;
      assert -1.0 <= rel / half <= 1.0;
    }
  }

  /** Only the position of the ball matters for which brick it hits. */
  lemma {:induction false} FirstHitByPosition(b1: BallState, b2: BallState, bricks: seq<Brick>)
    requires b1.x == b2.x && b1.y == b2.y && b1.radius == b2.radius
    ensures FirstHit(b1, bricks) == FirstHit(b2, bricks)
  {
    if bricks != [] {
      FirstHitByPosition(b1, b2, bricks[1..]);
    }
  }

  /** At most one brick changes in a brick step: the first visible brick in
      list order that the ball overlaps, which becomes invisible; the score
      rises by exactly its points; a side hit reverses the horizontal
      direction, any other hit the vertical one. */
  lemma BrickHitFirstMatch(s: Session)
    ensures var r := BrickPhase(s);
      && r == s.(bricks := r.bricks, score := r.score, ball := r.ball)
      && |r.bricks| == |s.bricks|
      && r.ball.x == s.ball.x && r.ball.y == s.ball.y && r.ball.radius == s.ball.radius
      && (forall j, k :: 0 <= j < k < |s.bricks| ==> r.bricks[j] == s.bricks[j] || r.bricks[k] == s.bricks[k])
      && (forall j :: 0 <= j < |s.bricks| && r.bricks[j] != s.bricks[j] ==>
            && r.bricks[j] == s.bricks[j].(visible := false)
            && Hittable(s.ball, s.bricks[j])
            && (forall m :: 0 <= m < j ==> !Hittable(s.ball, s.bricks[m]))
            && r.score == s.score + s.bricks[j].points
            && r.ball == Deflect(s.ball, s.bricks[j]))
      && ((exists j :: 0 <= j < |s.bricks| && Hittable(s.ball, s.bricks[j])) <==> r != s)
      && (r.bricks == s.bricks ==> r == s)
  {
    var r := BrickPhase(s);
    match FirstHit(s.ball, s.bricks)
    case None =>
    case Some(i) =>
      assert r.bricks[i] != s.bricks[i];
  }

  /** Score plus the points still on the board is the same before and after
      a brick step. */
  lemma BrickPhaseConservesPoints(s: Session)
    ensures BrickPhase(s).score + VisiblePoints(BrickPhase(s).bricks)
         == s.score + VisiblePoints(s.bricks)
  {
    match FirstHit(s.ball, s.bricks)
    case None =>
    case Some(i) =>
      VisiblePointsHide(s.bricks, i);
  }

  /** Falling past the bottom costs exactly one life; with lives left the ball
      is served again, otherwise the game is over and the score goes into the
      ranking file.  A ball still on screen changes nothing. */
  lemma LifeLoss(s: Session, towardRight: bool)
    ensures var r := FallPhase(s, towardRight);
      && r.paddle == s.paddle && r.bricks == s.bricks && r.score == s.score && r.level == s.level
      && (s.ball.y <= SCREEN_HEIGHT ==> r == s)
      && (s.ball.y > SCREEN_HEIGHT ==> r.lives == s.lives - 1)
      && (s.ball.y > SCREEN_HEIGHT && r.lives > 0 ==>
            r.ball == ResetBall(s.ball, towardRight) && r.state == s.state && r.rankingFile == s.rankingFile)
      && (s.ball.y > SCREEN_HEIGHT && r.lives <= 0 ==>
            && r.state == GameOver && r.ball == s.ball
            && r.rankingFile == Saved(Save(Load(s.rankingFile), Entry(s.playerName, s.score))))
  {
  }

  /** When no brick is left the level goes up by one, a fresh grid of 54
      visible bricks is laid, the ball is served again and the paddle
      shrinks by 10 but not below 50; otherwise nothing changes. */
  lemma LevelComplete(s: Session, towardRight: bool)
    ensures var r := LevelPhase(s, towardRight);
      && (!Cleared(s.bricks) ==> r == s)
      && (Cleared(s.bricks) ==>
            && r.level == s.level + 1 && r.bricks == FreshGrid() && GridShaped(r.bricks)
            && (forall i :: 0 <= i < |r.bricks| ==> r.bricks[i].visible)
            && r.ball == ResetBall(s.ball, towardRight)
            && r.paddle == s.paddle.(width := r.paddle.width)
            && r.paddle.width == Max(50, s.paddle.width - 10)
            && r.score == s.score && r.lives == s.lives && r.state == s.state)
      && r.paddle.width <= Max(50, s.paddle.width)
      && (s.paddle.width >= 50 ==> 50 <= r.paddle.width <= s.paddle.width)
  {
    FreshGridLayout();
  }

  // ------------------------------------------- lemmas: one collision check

  /** Over a whole collision check: the score rises by the points of the
      first brick hit, or not at all; except when the level is completed the
      grid differs only in that brick; completing the level lays a fresh
      grid. */
  lemma CollideBricks(s: Session, lifeCoin: bool, levelCoin: bool)
    requires s.paddle.width > 0
    ensures var r := Collide(s, lifeCoin, levelCoin);
      && (r.level == s.level || r.level == s.level + 1)
      && (r.level == s.level + 1 ==> r.bricks == FreshGrid())
      && match FirstHit(s.ball, s.bricks)
         case None =>
           r.score == s.score && (r.level == s.level ==> r.bricks == s.bricks)
         case Some(i) =>
           && r.score == s.score + s.bricks[i].points
           && (r.level == s.level ==> r.bricks == s.bricks[i := s.bricks[i].(visible := false)])
  {
    FirstHitByPosition(s.ball, PaddlePhase(s).ball, s.bricks);
  }

  /** Over a whole collision check: a life is lost exactly when the ball is
      below the screen, and the game ends, with the score saved, exactly
      when that was the last life. */
  lemma CollideLives(s: Session, lifeCoin: bool, levelCoin: bool)
    requires s.paddle.width > 0
    ensures var r := Collide(s, lifeCoin, levelCoin);
      var fallen := s.ball.y > SCREEN_HEIGHT;
      && (fallen ==> r.lives == s.lives - 1)
      && (!fallen ==> r.lives == s.lives)
      && (fallen && s.lives <= 1 ==>
            && r.state == GameOver
            && r.rankingFile == Saved(Save(Load(s.rankingFile), Entry(s.playerName, BrickPhase(PaddlePhase(s)).score))))
      && (!(fallen && s.lives <= 1) ==> r.state == s.state && r.rankingFile == s.rankingFile)
  {
  }

  /** A collision check on a grid with no visible brick completes the level,
      whatever else happens in it. */
  lemma CollideOnClearedGrid(s: Session, lifeCoin: bool, levelCoin: bool)
    requires s.paddle.width > 0 && Cleared(s.bricks)
    ensures var r := Collide(s, lifeCoin, levelCoin);
      && r.level == s.level + 1 && r.bricks == FreshGrid() && r.score == s.score
      && |r.bricks| == 54 && (forall i :: 0 <= i < 54 ==> r.bricks[i].visible)
      && r.ball.x == 400.0 && r.ball.y == 300 && r.ball.dy == -5
      && r.paddle.width == Max(50, s.paddle.width - 10)
  {
    var s1 := PaddlePhase(s);
    assert FirstHit(s1.ball, s1.bricks) == None;
    FreshGridLayout();
  }

  /** Nothing moves outside the playing state. */
  lemma OnlyWhilePlaying(s: Session, lifeCoin: bool, levelCoin: bool, left: bool, right: bool)
    requires s.paddle.width > 0 && s.state != Playing
    ensures Tick(s, lifeCoin, levelCoin) == s && HeldKeys(s, left, right) == s
  {
  }

  /** A brick step on a grid never lowers the score: every brick is worth
      at least one point. */
  lemma BrickScoreGrows(s: Session)
    requires GridShaped(s.bricks)
    ensures BrickPhase(s).score > s.score || BrickPhase(s) == s
  {
    match FirstHit(s.ball, s.bricks)
    case None =>
    case Some(i) =>
      assert s.bricks[i] == GridBrick(i).(visible := s.bricks[i].visible);
  }

  /** Within a frame the score never drops, the level rises by at most one
      and at most one life is lost; the game can only end by losing the last
      life. */
  lemma TickMonotone(s: Session, lifeCoin: bool, levelCoin: bool)
    requires Inv(s)
    ensures var r := Tick(s, lifeCoin, levelCoin);
      && r.score >= s.score
      && (r.level == s.level || r.level == s.level + 1)
      && (r.lives == s.lives || r.lives == s.lives - 1)
      && (r.state != s.state ==> s.state == Playing && r.state == GameOver && r.lives == 0)
  {
    if s.state == Playing {
      var s1 := PaddlePhase(s.(ball := MoveBall(s.ball)));
      var s2 := BrickPhase(s1);
      var s3 := FallPhase(s2, lifeCoin);
      PaddleBounce(s.(ball := MoveBall(s.ball)));
      BrickScoreGrows(s1);
      LifeLoss(s2, lifeCoin);
      LevelComplete(s3, levelCoin);
    }
  }

  // -------------------------------------------- lemmas: the state machine

  /** The key presses that do something: SPACE starts from the menu, ESC goes
      back to the menu keeping the session, R and M after a game over start a
      fresh session, playing or in the menu.  Every other key in every state
      changes nothing. */
  lemma KeyTransitions(s: Session, k: Key, towardRight: bool)
    ensures var r := KeyPress(s, k, towardRight);
      && (s.state == Menu && k == Space ==> r == s.(state := Playing))
      && (s.state == Playing && k == Escape ==> r == s.(state := Menu))
      && (s.state == GameOver && k == KeyR ==> r == ResetSession(s, towardRight).(state := Playing))
      && (s.state == GameOver && k == KeyM ==> r == ResetSession(s, towardRight).(state := Menu))
      && (r != s <==> (s.state, k) in {(Menu, Space), (Playing, Escape), (GameOver, KeyR), (GameOver, KeyM)})
      && (r.state == GameOver ==> r == s)
  {
  }

  /** A fresh session has score 0, 3 lives, level 1, a 100 pixel paddle at
      x = 350 and 54 visible bricks worth 279 points; resetting twice is the
      same as resetting once. */
  lemma FreshSession(s: Session, towardRight: bool)
    ensures var r := ResetSession(s, towardRight);
      && r.score == 0 && r.lives == 3 && r.level == 1
      && r.paddle.width == 100 && r.paddle.x == 350
      && |r.bricks| == 54 && (forall i :: 0 <= i < 54 ==> r.bricks[i].visible)
      && VisiblePoints(r.bricks) == 279
      && ResetSession(r, towardRight) == r
      && r.state == s.state && r.rankingFile == s.rankingFile
  {
    FreshGridLayout();
    GridTotalPoints();
  }

  // ---------------------------------------- lemmas: the session invariant

  lemma InitialInv(file: RankingFile, towardRight: bool)
    ensures Inv(InitialSession(file, towardRight))
  {
    FreshGridLayout();
  }

  lemma WellFormedPaddlePhase(s: Session)
    requires WellFormed(s)
    ensures WellFormed(PaddlePhase(s))
  {
  }

  lemma WellFormedBrickPhase(s: Session)
    requires WellFormed(s)
    ensures WellFormed(BrickPhase(s))
  {
    match FirstHit(s.ball, s.bricks)
    case None =>
    case Some(i) =>
      var r := BrickPhase(s);
      forall j | 0 <= j < 54
        ensures r.bricks[j] == GridBrick(j).(visible := r.bricks[j].visible)
      {
      }
  }

  lemma WellFormedFallPhase(s: Session, towardRight: bool)
    requires WellFormed(s)
    ensures WellFormed(FallPhase(s, towardRight))
  {
  }

  lemma WellFormedLevelPhase(s: Session, towardRight: bool)
    requires WellFormed(s)
    ensures WellFormed(LevelPhase(s, towardRight))
  {
    FreshGridLayout();
  }

  lemma WellFormedCollide(s: Session, lifeCoin: bool, levelCoin: bool)
    requires WellFormed(s)
    ensures WellFormed(Collide(s, lifeCoin, levelCoin))
  {
    var s1 := PaddlePhase(s);
    var s2 := BrickPhase(s1);
    WellFormedPaddlePhase(s);
    WellFormedBrickPhase(s1);
    WellFormedFallPhase(s2, lifeCoin);
    WellFormedLevelPhase(FallPhase(s2, lifeCoin), levelCoin);
  }

  lemma TickInv(s: Session, lifeCoin: bool, levelCoin: bool)
    requires Inv(s)
    ensures Inv(Tick(s, lifeCoin, levelCoin))
  {
    if s.state == Playing {
      var m := s.(ball := MoveBall(s.ball));
      assert WellFormed(m);
      WellFormedCollide(m, lifeCoin, levelCoin);
      TickMonotone(s, lifeCoin, levelCoin);
      CollideLives(m, lifeCoin, levelCoin);
    }
  }

  lemma HeldKeysInv(s: Session, left: bool, right: bool)
    requires Inv(s)
    ensures Inv(HeldKeys(s, left, right))
  {
  }

  lemma KeyPressInv(s: Session, k: Key, towardRight: bool)
    requires Inv(s)
    ensures Inv(KeyPress(s, k, towardRight))
  {
    FreshGridLayout();
  }
}
