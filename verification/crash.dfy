/**
 `checkCrash`: the ground test, then the pixel test of the player against
 every pipe pair.
 */
module Crash {
  import opened Consts
  import opened Geometry
  import opened Collision
  import opened Pipes
  import opened Sprites

  /** `[crashed, crashedIntoGround]`. */
  datatype Crash = Crash(hit: bool, ground: bool)

  /** The player's box; its float y is coerced to a pixel row as pygame does. */
  function PlayerRect(a: Assets, playerx: int, playery: real): Rect {
    Rect(playerx, a.toPixel(playery), a.playerWidth, a.playerHeight)
  }

  /** A pipe's box; its float x is coerced to a pixel column. */
  function PipeRect(a: Assets, p: Pipe): Rect {
    Rect(a.toPixel(p.x), p.y, a.pipeWidth, a.pipeHeight)
  }

  /** The player touches the upper or the lower pipe of a pair. */
  predicate PairCollides(a: Assets, player: Rect, playerMask: Mask, u: Pipe, l: Pipe) {
    || Overlap(player, PipeRect(a, u), playerMask, a.upperMask)
    || Overlap(player, PipeRect(a, l), playerMask, a.lowerMask)
  }

  /** The player's lower edge has reached the line one pixel above the ground. */
  predicate OnGround(a: Assets, playery: real) {
    playery + a.playerHeight as real >= BaseY - 1.0
  }

  /** Scans the zipped pipe lists from pair `k`, stopping at the first collision. */
  function PairsCollideFrom(a: Assets, player: Rect, playerMask: Mask, upper: seq<Pipe>, lower: seq<Pipe>, k: nat): (hit: bool)
    ensures hit <==> exists i | k <= i < |upper| && i < |lower| :: PairCollides(a, player, playerMask, upper[i], lower[i])
    decreases |upper| - k
  {
    if k >= |upper| || k >= |lower| then false
    else if PairCollides(a, player, playerMask, upper[k], lower[k]) then true
    else PairsCollideFrom(a, player, playerMask, upper, lower, k + 1)
  }

  /**
   The crash verdict for the player with animation frame `index` at
   (playerx, playery) against the zipped pipe lists.
   */
  function CheckCrash(a: Assets, playerx: int, playery: real, index: nat, upper: seq<Pipe>, lower: seq<Pipe>): (c: Crash)
    requires a.Valid() && index < 3
    ensures c.ground <==> OnGround(a, playery)
    ensures c.ground ==> c.hit
    ensures !c.ground ==>
              (c.hit <==> exists i | 0 <= i < |upper| && i < |lower| ::
                            PairCollides(a, PlayerRect(a, playerx, playery), a.playerMasks[index], upper[i], lower[i]))
  {
    if OnGround(a, playery) then Crash(true, true)
    else
      var hit := PairsCollideFrom(a, PlayerRect(a, playerx, playery), a.playerMasks[index], upper, lower, 0);
      Crash(hit, false)
  }

  /** On the ground the verdict is `[True, True]` whatever the pipes are. */
  lemma GroundCrashIgnoresPipes(a: Assets, playerx: int, playery: real, index: nat, upper: seq<Pipe>, lower: seq<Pipe>)
    requires a.Valid() && index < 3 && OnGround(a, playery)
    ensures CheckCrash(a, playerx, playery, index, upper, lower) == Crash(true, true)
    ensures CheckCrash(a, playerx, playery, index, upper, lower) == CheckCrash(a, playerx, playery, index, [], [])
  {
  }
}
