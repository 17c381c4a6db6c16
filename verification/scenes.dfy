/**
 The run state of one game and the per-scene handlers with the drawing
 stripped away: INIT and PREPARE only change scene, WELCOME bobs the player,
 FLY integrates the player and the pipes and tests for a crash, GAMEOVER
 lets the player fall and waits for a restart.
 */
module Scenes {
  import opened Consts
  import opened Pipes
  import opened Sprites
  import opened Crash
  import opened Physics
  import opened Input

  datatype Scene = Init | Prepare | Welcome | Fly | GameOver | Exit

  /**
   The mutable fields of the game object that the logic reads. `frame` is
   the position of `playerIndexGen` in `PlayerFrames`.
   */
  datatype Game = Game(
    scene: Scene,
    tick: nat,
    playerIndex: nat,
    frame: nat,
    loopIter: nat,
    playerx: int,
    playery: real,
    deltay: int,
    score: nat,
    upperPipes: seq<Pipe>,
    lowerPipes: seq<Pipe>,
    pipeVelX: real,
    velY: int,
    rot: int,
    flapped: bool,
    crashTest: Crash)

  /** The random gap draws one tick may consume: two when FLY starts, one for an appended pair. */
  datatype Draws = Draws(first: int, second: int, extra: int) {
    predicate Valid() {
      ValidDraw(first) && ValidDraw(second) && ValidDraw(extra)
    }
  }

  /** The game object as constructed, before the first tick. */
  function NewGame(): Game {
    Game(Init, 0, 0, 0, 0, 0, 0.0, 0, 0, [], [], 0.0, 0, 0, false, Crash(false, false))
  }

  /** `game_next_state`: a real change of scene resets the scene tick. */
  function NextState(g: Game, next: Scene): (r: Game)
    ensures r.scene == next
    ensures r.tick == (if next != g.scene then 0 else g.tick)
    ensures r == g.(scene := r.scene, tick := r.tick)
  {
    if next != g.scene then g.(scene := next, tick := 0) else g
  }

  /** A real change of scene resets the tick to 0; naming the current scene changes nothing. */
  lemma NextStateResetsTick(g: Game, next: Scene)
    ensures next != g.scene ==> NextState(g, next).scene == next && NextState(g, next).tick == 0
    ensures next == g.scene ==> NextState(g, next) == g
    ensures NextState(g, next) == g.(scene := next, tick := NextState(g, next).tick)
  {
  }

  /** `is_game_start_state`. */
  predicate IsStart(g: Game) {
    g.tick == 1
  }

  /** What every handler relies on to index its tables and zip its lists. */
  predicate Inv(g: Game) {
    g.frame < |PlayerFrames| && g.playerIndex < 3 && |g.upperPipes| == |g.lowerPipes|
  }

  // ----- WELCOME -----

  /** The player's resting height on the welcome screen, `int((SCREENHEIGHT - h) / 2)`. */
  function WelcomeY(a: Assets): int {
    Trunc((ScreenHeight - a.playerHeight) as real / 2.0)
  }

  /**
   One WELCOME tick. On ACTION the scene switches to FLY before the bob is
   computed, so the bob offset FLY inherits is the one of scene tick 0.
   */
  function WelcomeStep(g: Game, input: GameInput, a: Assets): (r: Game)
    requires g.scene == Welcome && g.tick >= 1 && Inv(g)
    ensures Inv(r)
    ensures r.scene == (if input == Action then Fly else Welcome)
    ensures r.scene == Welcome ==> r.tick == g.tick && r.deltay == Wave(g.tick)
    ensures r.scene == Fly ==> r.tick == 0 && r.deltay == -Amplitude
    ensures r.playery == (if IsStart(g) then WelcomeY(a) as real else g.playery)
    ensures IsStart(g) ==> r.frame <= 1 && r.playerIndex == 0
    ensures var s := if IsStart(g) then g.(playerIndex := 0, frame := 0, loopIter := 0) else g;
            && r.loopIter == (s.loopIter + 1) % 30
            && (r.playerIndex, r.frame) == (if (s.loopIter + 1) % 5 == 0 then NextFrame(s.frame) else (s.playerIndex, s.frame))
    ensures r.playerx == (if IsStart(g) then PlayerX else g.playerx)
    ensures r == g.(scene := r.scene, tick := r.tick, playerIndex := r.playerIndex, frame := r.frame,
                    loopIter := r.loopIter, playerx := r.playerx, playery := r.playery, deltay := r.deltay)
  {
    var s := if IsStart(g)
      then g.(playerIndex := 0, frame := 0, loopIter := 0, playerx := PlayerX, playery := WelcomeY(a) as real)
      else g;
    var t := if input == Action then NextState(s, Fly) else s;
    var next := if (t.loopIter + 1) % 5 == 0 then NextFrame(t.frame) else (t.playerIndex, t.frame);
    t.(playerIndex := next.0, frame := next.1, loopIter := (t.loopIter + 1) % 30, deltay := Wave(t.tick))
  }

  // ----- FLY -----

  /** FLY's first-tick set-up: fresh score, two pipe pairs, launch velocity and rotation. */
  function FlyStart(g: Game, a: Assets, d: Draws, clockMs: nat): (r: Game)
    requires d.Valid()
    ensures r.scene == g.scene && r.tick == g.tick && r.frame == g.frame
    ensures r.score == 0 && r.playerIndex == 0 && r.loopIter == 0 && r.playerx == PlayerX
    ensures r.playery == g.playery + g.deltay as real
    ensures |r.upperPipes| == 2 && WellPaired(r.upperPipes, r.lowerPipes, a.pipeHeight)
    ensures r.upperPipes[0].x == (ScreenWidth + 200) as real
    ensures r.upperPipes[1].x == r.upperPipes[0].x + ScreenWidth as real / 2.0
    ensures r.upperPipes[0].y == RandomPipe(d.first, a.pipeHeight).upper.y
    ensures r.upperPipes[1].y == RandomPipe(d.second, a.pipeHeight).upper.y
    ensures r.pipeVelX <= 0.0
    ensures r.pipeVelX == -128.0 * (clockMs as real / 1000.0)
    ensures clockMs >= 32 ==> r.pipeVelX <= -4.0
    ensures r == g.(score := r.score, playerIndex := r.playerIndex, loopIter := r.loopIter, playerx := r.playerx,
                    playery := r.playery, upperPipes := r.upperPipes, lowerPipes := r.lowerPipes,
                    pipeVelX := r.pipeVelX, velY := r.velY, rot := r.rot, flapped := r.flapped)
    ensures r.velY == FlapAcc && r.rot == FlapRot && !r.flapped
  {
    var p1 := RandomPipe(d.first, a.pipeHeight);
    var p2 := RandomPipe(d.second, a.pipeHeight);
    var x1 := (ScreenWidth + 200) as real;
    var x2 := x1 + ScreenWidth as real / 2.0;
    g.(score := 0, playerIndex := 0, loopIter := 0, playerx := PlayerX,
       playery := g.playery + g.deltay as real,
       upperPipes := [Pipe(x1, p1.upper.y), Pipe(x2, p2.upper.y)],
       lowerPipes := [Pipe(x1, p1.lower.y), Pipe(x2, p2.lower.y)],
       pipeVelX := -128.0 * (clockMs as real / 1000.0),
       velY := FlapAcc, rot := FlapRot, flapped := false)
  }

  /** ACTION flaps unless the player is more than twice its height above the screen. */
  function Flap(g: Game, input: GameInput, a: Assets): (r: Game)
    ensures r.flapped <==> g.flapped || (input == Action && g.playery > -2.0 * a.playerHeight as real)
    ensures r == g || (r.flapped && r.velY == FlapAcc)
    ensures r == g.(velY := r.velY, flapped := r.flapped)
  {
    if input == Action && g.playery > -2.0 * a.playerHeight as real then g.(velY := FlapAcc, flapped := true) else g
  }

  /** `playerMinVelY` bounds nothing: a flap sets the velocity to -9, below it. */
  lemma FlapBelowMinVel(g: Game, a: Assets)
    requires g.playery > -2.0 * a.playerHeight as real
    ensures Flap(g, Action, a).velY == FlapAcc < MinVelY
  {
  }

  /** The state FLY tests for a crash: set up on the first tick, then flapped. */
  function FlyReady(g: Game, input: GameInput, a: Assets, d: Draws, clockMs: nat): Game
    requires d.Valid()
  {
    Flap(if IsStart(g) then FlyStart(g, a, d, clockMs) else g, input, a)
  }

  /** The horizontal middle of the player sprite. */
  function PlayerMid(a: Assets, playerx: int): real {
    playerx as real + a.playerWidth as real / 2.0
  }

  /** The pipe's middle lies in the 4-pixel band ending at the player's middle. */
  predicate Scores(p: Pipe, playerMid: real, pipeWidth: nat) {
    var pipeMid := p.x + pipeWidth as real / 2.0;
    pipeMid <= playerMid < pipeMid + 4.0
  }

  /** The points one FLY tick awards: one per upper pipe whose middle is in the band. */
  function Passed(pipes: seq<Pipe>, playerMid: real, pipeWidth: nat): (n: nat)
    ensures n <= |pipes|
    ensures n == 0 <==> forall i | 0 <= i < |pipes| :: !Scores(pipes[i], playerMid, pipeWidth)
    ensures n == |pipes| <==> forall i | 0 <= i < |pipes| :: Scores(pipes[i], playerMid, pipeWidth)
    decreases |pipes|
  {
    if |pipes| == 0 then 0
    else (if Scores(pipes[0], playerMid, pipeWidth) then 1 else 0) + Passed(pipes[1..], playerMid, pipeWidth)
  }

  /** The indices of the pipes in the list from `lo` on whose middle is in the band. */
  function ScoringPipes(pipes: seq<Pipe>, playerMid: real, pipeWidth: nat, lo: nat): set<nat> {
    set i: nat | lo <= i < |pipes| && Scores(pipes[i], playerMid, pipeWidth)
  }

  /** A FLY tick awards exactly one point per upper pipe in the band. */
  lemma PassedCountsScoringPipes(pipes: seq<Pipe>, playerMid: real, pipeWidth: nat)
    ensures Passed(pipes, playerMid, pipeWidth) == |ScoringPipes(pipes, playerMid, pipeWidth, 0)|
  {
    PassedCountsFrom(pipes, playerMid, pipeWidth, 0);
    assert pipes[0..] == pipes;
  }

  lemma {:induction false} PassedCountsFrom(pipes: seq<Pipe>, playerMid: real, pipeWidth: nat, lo: nat)
    requires lo <= |pipes|
    ensures Passed(pipes[lo..], playerMid, pipeWidth) == |ScoringPipes(pipes, playerMid, pipeWidth, lo)|
    decreases |pipes| - lo
  {
    var s := ScoringPipes(pipes, playerMid, pipeWidth, lo);
    if lo == |pipes| {
      assert s == {};
    } else {
      PassedCountsFrom(pipes, playerMid, pipeWidth, lo + 1);
      assert pipes[lo..][1..] == pipes[lo + 1..];
      var t := ScoringPipes(pipes, playerMid, pipeWidth, lo + 1);
      if Scores(pipes[lo], playerMid, pipeWidth) {
        assert s == t + {lo};
      } else {
        assert s == t;
      }
    }
  }

  /**
   The frame clock paces ticks at 30 per second, so FLY starts with at least
   32 ms elapsed and pipes move at least 4 pixels a tick: a pipe's middle is
   in the 4-pixel scoring band on one tick at most.
   */
  lemma ScoresOncePerPipe(p: Pipe, playerMid: real, pipeWidth: nat, clockMs: nat, n: nat)
    requires clockMs >= 32 && n >= 1
    ensures var velX := -128.0 * (clockMs as real / 1000.0);
            !(Scores(p, playerMid, pipeWidth) && Scores(Pipe(p.x + n as real * velX, p.y), playerMid, pipeWidth))
  {
  }

  /**
   On a FLY tick with pipes moving at least 4 pixels, an upper pipe that
   scores now no longer scores after the move, wherever eviction left it.
   */
  lemma FlyMoveScoresOnce(g: Game, a: Assets, draw: int, i: nat)
    requires Inv(g) && ValidDraw(draw) && g.pipeVelX <= -4.0
    requires i < |g.upperPipes| && Scores(g.upperPipes[i], PlayerMid(a, g.playerx), a.pipeWidth)
    ensures var r := FlyMove(g, a, draw);
            var gone := if EvictDue(Shift(g.upperPipes, g.pipeVelX), a.pipeWidth) then 1 else 0;
            i >= gone ==> !Scores(r.upperPipes[i - gone], PlayerMid(a, r.playerx), a.pipeWidth)
  {
  }

  /**
   Had the clock reported 28 ms, a pipe could score on two FLY ticks in a row:
   with the 34-pixel player and 52-pixel pipe sprites, the second starting
   pair reaches x = 47.808 after 163 moves and is in the band there and after
   the next move.
   */
  lemma ShortFrameScoresTwice(g: Game, a: Assets, draw: int)
    requires Inv(g) && ValidDraw(draw) && a.playerWidth == 34 && a.pipeWidth == 52 && g.playerx == PlayerX
    requires g.pipeVelX == -128.0 * (28 as real / 1000.0)
    requires |g.upperPipes| > 0
    requires g.upperPipes[0].x == (ScreenWidth + 200) as real + ScreenWidth as real / 2.0 + 163.0 * g.pipeVelX
    ensures g.upperPipes[0].x == 47.808
    ensures var r := FlyMove(g, a, draw);
            && r.upperPipes[0] == Pipe(g.upperPipes[0].x + g.pipeVelX, g.upperPipes[0].y)
            && Scores(g.upperPipes[0], PlayerMid(a, g.playerx), a.pipeWidth)
            && Scores(r.upperPipes[0], PlayerMid(a, r.playerx), a.pipeWidth)
  {
    ScreenConstants();
    var velX := g.pipeVelX;
    assert velX == -3.584;
    var p := g.upperPipes[0];
    assert p.x == 47.808;
    assert PlayerMid(a, g.playerx) == 74.0;
    var moved := Shift(g.upperPipes, velX);
    assert moved[0].x == 44.224;
    assert !EvictDue(moved, a.pipeWidth);
    var r := FlyMove(g, a, draw);
    assert r.upperPipes[0] == Pipe(p.x + velX, p.y);
    assert r.playerx == g.playerx;
  }

  /** The rest of a FLY tick once no crash was found. */
  function FlyMove(g: Game, a: Assets, draw: int): (r: Game)
    requires Inv(g) && ValidDraw(draw)
    ensures Inv(r)
    ensures r.scene == g.scene && r.tick == g.tick && r.crashTest == g.crashTest && !r.flapped
    ensures r.score == g.score + Passed(g.upperPipes, PlayerMid(a, g.playerx), a.pipeWidth)
    ensures r.velY == GravityFly(g.velY, g.flapped) && r.rot == RotateFly(g.rot, g.flapped)
    ensures r.playery + a.playerHeight as real <= BaseY
    ensures r.playery + a.playerHeight as real == BaseY <==> r.velY as real >= BaseY - g.playery - a.playerHeight as real
    ensures WellPaired(g.upperPipes, g.lowerPipes, a.pipeHeight) ==> WellPaired(r.upperPipes, r.lowerPipes, a.pipeHeight)
    ensures |g.upperPipes| <= 3 ==> |r.upperPipes| <= 3
    ensures (r.upperPipes, r.lowerPipes) == MovePipes(g.upperPipes, g.lowerPipes, g.pipeVelX, a.pipeWidth, a.pipeHeight, draw)
    ensures r.playery == Fall(g.playery, r.velY, a.playerHeight)
    ensures r.loopIter == (g.loopIter + 1) % 30
    ensures (r.playerIndex, r.frame) == (if (g.loopIter + 1) % 3 == 0 then NextFrame(g.frame) else (g.playerIndex, g.frame))
    ensures r == g.(score := r.score, playerIndex := r.playerIndex, frame := r.frame, loopIter := r.loopIter,
                    rot := r.rot, velY := r.velY, flapped := r.flapped, playery := r.playery,
                    upperPipes := r.upperPipes, lowerPipes := r.lowerPipes)
  {
    var next := if (g.loopIter + 1) % 3 == 0 then NextFrame(g.frame) else (g.playerIndex, g.frame);
    var velY := GravityFly(g.velY, g.flapped);
    var pipes := MovePipes(g.upperPipes, g.lowerPipes, g.pipeVelX, a.pipeWidth, a.pipeHeight, draw);
    g.(score := g.score + Passed(g.upperPipes, PlayerMid(a, g.playerx), a.pipeWidth),
       playerIndex := next.0, frame := next.1, loopIter := (g.loopIter + 1) % 30,
       rot := RotateFly(g.rot, g.flapped), velY := velY, flapped := false,
       playery := Fall(g.playery, velY, a.playerHeight),
       upperPipes := pipes.0, lowerPipes := pipes.1)
  }

  /**
   One FLY tick: set up on the first tick, flap, test for a crash and on a
   crash switch to GAMEOVER leaving everything else as the crash test saw it; otherwise score,
   animate, rotate, accelerate, fall and move the pipes.
   */
  function FlyStep(g: Game, input: GameInput, a: Assets, d: Draws, clockMs: nat): (r: Game)
    requires a.Valid() && d.Valid() && g.scene == Fly && g.tick >= 1 && Inv(g)
    ensures Inv(r)
    ensures r.scene == Fly || r.scene == GameOver
    ensures r.scene == GameOver <==> r.crashTest.hit
    ensures r.scene == Fly ==> r.tick == g.tick && !r.flapped
    ensures r.scene == GameOver ==>
              var f := FlyReady(g, input, a, d, clockMs);
              r == f.(scene := GameOver, tick := 0, crashTest := r.crashTest)
    ensures !IsStart(g) && r.scene == Fly ==>
              r.score == g.score + Passed(g.upperPipes, PlayerMid(a, g.playerx), a.pipeWidth)
    ensures !IsStart(g) ==> r.score >= g.score
    ensures r.pipeVelX == (if IsStart(g) then -128.0 * (clockMs as real / 1000.0) else g.pipeVelX)
    ensures var f := FlyReady(g, input, a, d, clockMs);
            r.crashTest == CheckCrash(a, f.playerx, f.playery, f.playerIndex, f.upperPipes, f.lowerPipes)
    ensures r.scene == Fly ==> r == FlyMove(FlyReady(g, input, a, d, clockMs).(crashTest := r.crashTest), a, d.extra)
  {
    var f := FlyReady(g, input, a, d, clockMs);
    var crash := CheckCrash(a, f.playerx, f.playery, f.playerIndex, f.upperPipes, f.lowerPipes);
    if crash.hit then NextState(f.(crashTest := crash), GameOver)
    else FlyMove(f.(crashTest := crash), a, d.extra)
  }

  /**
   What FLY keeps true between its ticks: velocity between the flap velocity
   and the maximum, rotation 45 minus a multiple of 3 down to -90, no pending
   flap, at most three well-paired pipe pairs, and the player above the ground.
   */
  predicate FlyBounds(g: Game, a: Assets) {
    && FlapAcc <= g.velY <= MaxVelY
    && MinRot <= g.rot <= FlapRot && (FlapRot - g.rot) % VelRotFly == 0
    && !g.flapped
    && WellPaired(g.upperPipes, g.lowerPipes, a.pipeHeight) && |g.upperPipes| <= 3
    && g.playery + a.playerHeight as real <= BaseY
  }

  /** FLY's first tick establishes its bounds and every later tick keeps them. */
  lemma FlyStepKeepsBounds(g: Game, input: GameInput, a: Assets, d: Draws, clockMs: nat)
    requires a.Valid() && d.Valid() && g.scene == Fly && g.tick >= 1 && Inv(g)
    requires IsStart(g) || FlyBounds(g, a)
    ensures FlyStep(g, input, a, d, clockMs).scene == Fly ==> FlyBounds(FlyStep(g, input, a, d, clockMs), a)
    ensures FlapAcc <= FlyStep(g, input, a, d, clockMs).velY <= MaxVelY
  {
  }

  // ----- GAMEOVER -----

  /**
   One GAMEOVER tick: ACTION restarts only once the player lies on the ground;
   otherwise fall while above the ground, accelerate by 2 while below 15, and
   keep rotating only after a pipe crash.
   */
  function GameOverStep(g: Game, input: GameInput, a: Assets): (r: Game)
    requires g.scene == GameOver && g.tick >= 1
    ensures r.scene == Prepare || r.scene == GameOver
    ensures r.scene == Prepare <==> input == Action && OnGround(a, g.playery)
    ensures r.scene == Prepare ==> r == g.(scene := Prepare, tick := 0)
    ensures r.scene == GameOver ==> r.tick == g.tick && r.crashTest == g.crashTest && r.score == g.score
    ensures r.scene == GameOver && g.crashTest.ground ==> r.rot == g.rot
    ensures r.scene == GameOver && !g.crashTest.ground && g.rot > MinRot ==> r.rot == g.rot - VelRotOver
    ensures r.scene == GameOver && !g.crashTest.ground && g.rot <= MinRot ==> r.rot == g.rot
    ensures r.scene == GameOver ==> r == g.(playery := r.playery, velY := r.velY, rot := r.rot)
    ensures r.scene == GameOver && !OnGround(a, g.playery) ==> r.playery + a.playerHeight as real <= BaseY
    ensures r.scene == GameOver && OnGround(a, g.playery) ==> r.playery == g.playery
    ensures g.velY <= r.velY <= (if g.velY <= FallVelOver + 1 then FallVelOver + 1 else g.velY)
    ensures r.scene == GameOver ==> r.velY == GravityOver(g.velY)
    ensures r.scene == GameOver ==>
              r.playery == (if OnGround(a, g.playery) then g.playery else Fall(g.playery, g.velY, a.playerHeight))
  {
    if input == Action && OnGround(a, g.playery) then NextState(g, Prepare)
    else
      var y := if !OnGround(a, g.playery) then Fall(g.playery, g.velY, a.playerHeight) else g.playery;
      var rot := if !g.crashTest.ground && g.rot > MinRot then g.rot - VelRotOver else g.rot;
      g.(playery := y, velY := GravityOver(g.velY), rot := rot)
  }

  // ----- dispatch -----

  /** `GAME_HANDLER[GAME_STATE](self)`. */
  function Handle(v: Game, input: GameInput, a: Assets, d: Draws, clockMs: nat): (r: Game)
    requires a.Valid() && d.Valid() && Inv(v) && v.tick >= 1
    ensures Inv(r)
    ensures (r.scene == v.scene && r.tick == v.tick) || (r.scene != v.scene && r.tick == 0)
    ensures v.scene == Exit ==> r.scene == Exit
    ensures v.scene != Init ==> r.scene != Init
  {
    match v.scene
    case Init => NextState(v, Prepare)
    case Prepare => NextState(v, Welcome)
    case Welcome => WelcomeStep(v, input, a)
    case Fly => FlyStep(v, input, a, d, clockMs)
    case GameOver => GameOverStep(v, input, a)
    case Exit => v
  }
}
