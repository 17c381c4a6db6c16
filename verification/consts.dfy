/**
 Screen geometry of the game and the one Python numeric conversion the game
 relies on (`int(...)` applied to a float).
 */
module Consts {

  const ScreenWidth: int := 288
  const ScreenHeight: int := 512
  /** Vertical gap between an upper and a lower pipe. */
  const PipeGapSize: int := 100
  /** The ground line, `SCREENHEIGHT * 0.79`, kept exact as a real. */
  const BaseY: real := ScreenHeight as real * 0.79
  /** Horizontal position of the player, `int(SCREENWIDTH * 0.2)`. */
  const PlayerX: int := Trunc(ScreenWidth as real * 0.2)

  /** Python's `int(r)` on a float: truncation toward zero. */
  function Trunc(r: real): (n: int)
    ensures 0.0 <= r ==> n as real <= r < n as real + 1.0
    ensures r < 0.0 ==> n as real - 1.0 < r <= n as real
  {
    if r >= 0.0 then r.Floor else -((-r).Floor)
  }

  /** The derived screen constants have the values the game is tuned for. */
  lemma ScreenConstants()
    ensures BaseY == 404.48
    ensures PlayerX == 57
  {
  }
}
