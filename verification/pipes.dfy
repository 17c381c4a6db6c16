/**
 The pipe stream: the generator of upper/lower pipe pairs and the per-tick
 shift, append and evict of the FLY scene.
 */
module Pipes {
  import opened Consts

  /** One pipe sprite's top-left corner. */
  datatype Pipe = Pipe(x: real, y: int)

  datatype PipePair = PipePair(upper: Pipe, lower: Pipe)

  /** The exclusive upper end of the gap draw, `int(BASEY * 0.6 - PIPEGAPSIZE)`. */
  const GapDrawLimit: int := Trunc(BaseY * 0.6 - PipeGapSize as real)
  /** The smallest gap top, `int(BASEY * 0.2)`. */
  const GapTopMin: int := Trunc(BaseY * 0.2)

  lemma GapConstants()
    ensures GapDrawLimit == 142
    ensures GapTopMin == 80
  {
  }

  /** A value `random.randrange(0, GapDrawLimit)` can return. */
  predicate ValidDraw(draw: int) {
    0 <= draw < GapDrawLimit
  }

  /**
   `getRandomPipe` with the random draw as a parameter: both pipes just past
   the right edge, the gap between them starting at `draw + GapTopMin`.
   */
  function RandomPipe(draw: int, pipeHeight: int): (p: PipePair)
    requires ValidDraw(draw)
    ensures p.upper.x == p.lower.x == (ScreenWidth + 10) as real
    ensures GapTopMin <= p.upper.y + pipeHeight <= GapTopMin + GapDrawLimit - 1
    ensures 80 <= p.upper.y + pipeHeight <= 221
    ensures p.lower.y - p.upper.y == pipeHeight + PipeGapSize
  {
    var gapY := draw + GapTopMin;
    var pipeX := (ScreenWidth + 10) as real;
    PipePair(Pipe(pipeX, gapY - pipeHeight), Pipe(pipeX, gapY + PipeGapSize))
  }

  /** Every gap top of the band comes from exactly one draw. */
  lemma RandomPipeCoversBand(gapY: int, pipeHeight: int)
    requires GapTopMin <= gapY < GapTopMin + GapDrawLimit
    ensures exists draw | ValidDraw(draw) :: RandomPipe(draw, pipeHeight).upper.y + pipeHeight == gapY
    ensures forall d1, d2 | ValidDraw(d1) && ValidDraw(d2) ::
              RandomPipe(d1, pipeHeight) == RandomPipe(d2, pipeHeight) ==> d1 == d2
  {
    var draw := gapY - GapTopMin;
    assert RandomPipe(draw, pipeHeight).upper.y + pipeHeight == gapY;
  }

  /**
   The two pipe lists describe pairs: same length, same x in each pair, and
   the lower pipe one pipe height plus the gap below the upper one.
   */
  predicate WellPaired(upper: seq<Pipe>, lower: seq<Pipe>, pipeHeight: int) {
    && |upper| == |lower|
    && forall i | 0 <= i < |upper| ::
         upper[i].x == lower[i].x && lower[i].y - upper[i].y == pipeHeight + PipeGapSize
  }

  /** Moves every pipe left by `velX` (`x += pipeVelX`). */
  function Shift(pipes: seq<Pipe>, velX: real): (r: seq<Pipe>)
    ensures |r| == |pipes|
    ensures forall i | 0 <= i < |r| :: r[i] == Pipe(pipes[i].x + velX, pipes[i].y)
  {
    seq(|pipes|, i requires 0 <= i < |pipes| => Pipe(pipes[i].x + velX, pipes[i].y))
  }

  /** The lead pipe is about to reach the left edge and there is room for a pair. */
  predicate AppendDue(upper: seq<Pipe>) {
    3 > |upper| > 0 && 0.0 < upper[0].x < 5.0
  }

  /** The lead pipe has left the screen. */
  predicate EvictDue(upper: seq<Pipe>, pipeWidth: int) {
    |upper| > 0 && upper[0].x < -(pipeWidth as real)
  }

  /**
   One FLY tick of the pipe lists: shift both lists, append a newPair pair from
   `draw` when `AppendDue`, then drop the lead pair when `EvictDue`.
   */
  function MovePipes(upper: seq<Pipe>, lower: seq<Pipe>, velX: real, pipeWidth: nat, pipeHeight: int, draw: int)
    : (r: (seq<Pipe>, seq<Pipe>))
    requires |upper| == |lower| && ValidDraw(draw)
    ensures WellPaired(upper, lower, pipeHeight) ==> WellPaired(r.0, r.1, pipeHeight)
    ensures |upper| <= 3 ==> |r.0| <= 3
    ensures |r.0| == |r.1|
    ensures |r.0| > |upper| <==> AppendDue(Shift(upper, velX))
    ensures |r.0| < |upper| <==> EvictDue(Shift(upper, velX), pipeWidth)
    ensures |upper| - 1 <= |r.0| <= |upper| + 1
    ensures AppendDue(Shift(upper, velX)) ==>
              r.0[|r.0| - 1] == RandomPipe(draw, pipeHeight).upper && r.1[|r.1| - 1] == RandomPipe(draw, pipeHeight).lower
    ensures var gone := if EvictDue(Shift(upper, velX), pipeWidth) then 1 else 0;
            forall i | 0 <= i < |upper| - gone ::
              r.0[i] == Pipe(upper[i + gone].x + velX, upper[i + gone].y)
              && r.1[i] == Pipe(lower[i + gone].x + velX, lower[i + gone].y)
  {
    var su := Shift(upper, velX);
    var sl := Shift(lower, velX);
    var newPair := RandomPipe(draw, pipeHeight);
    var au := if AppendDue(su) then su + [newPair.upper] else su;
    var al := if AppendDue(su) then sl + [newPair.lower] else sl;
    if |au| > 0 && au[0].x < -(pipeWidth as real) then (au[1..], al[1..]) else (au, al)
  }
}
