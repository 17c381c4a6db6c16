/**
 What a run knows about its sprites once PREPARE has chosen them: sizes,
 and hit masks, plus the platform's float-to-pixel coercion
 used when a box is built from a float position.
 */
module Sprites {
  import opened Geometry

  datatype Assets = Assets(
    playerWidth: nat,
    playerHeight: nat,
    playerMasks: seq<Mask>,
    pipeWidth: nat,
    pipeHeight: nat,
    upperMask: Mask,
    lowerMask: Mask,
    toPixel: real -> int)
  {
    /**
     Three player frames sharing one size and two pipe masks of the pipe's size.
     */
    predicate Valid() {
      && |playerMasks| == 3
      && (forall k | 0 <= k < |playerMasks| :: Fits(playerMasks[k], playerWidth, playerHeight))
      && Fits(upperMask, pipeWidth, pipeHeight)
      && Fits(lowerMask, pipeWidth, pipeHeight)
    }
  }
}
