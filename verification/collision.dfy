/**
 Pixel-exact collision between two sprites: their boxes must share a pixel at
 which both masks are opaque.
 */
module Collision {
  import opened Geometry

  /** The mask is opaque at local coordinate (cx, cy); false outside the mask. */
  predicate Opaque(m: Mask, cx: int, cy: int) {
    0 <= cx < |m| && 0 <= cy < |m[cx]| && m[cx][cy]
  }

  /** Screen pixel (px, py) lies in both boxes and is opaque in both masks. */
  predicate PixelHit(r1: Rect, r2: Rect, m1: Mask, m2: Mask, px: int, py: int) {
    && Contains(r1, px, py)
    && Contains(r2, px, py)
    && Opaque(m1, px - r1.x, py - r1.y)
    && Opaque(m2, px - r2.x, py - r2.y)
  }

  /** Reference meaning of a collision: some screen pixel is a hit. */
  predicate Overlap(r1: Rect, r2: Rect, m1: Mask, m2: Mask) {
    exists px, py | r1.x <= px < r1.x + r1.w && r1.y <= py < r1.y + r1.h ::
      PixelHit(r1, r2, m1, m2, px, py)
  }

  /**
   `pixelCollision`: clip the two boxes, give up on an empty intersection, and
   otherwise scan the intersection column by column in the masks' local
   coordinates, stopping at the first pixel opaque in both.
   */
  method PixelCollision(rect1: Rect, rect2: Rect, hitmask1: Mask, hitmask2: Mask) returns (hit: bool)
    requires Fits(hitmask1, rect1.w, rect1.h) && Fits(hitmask2, rect2.w, rect2.h)
    ensures hit <==> Overlap(rect1, rect2, hitmask1, hitmask2)
  {
    var rect := Clip(rect1, rect2);
    if rect.w == 0 || rect.h == 0 {
      return false;
    }
    var x1, y1 := rect.x - rect1.x, rect.y - rect1.y;
    var x2, y2 := rect.x - rect2.x, rect.y - rect2.y;
    for x := 0 to rect.w
      invariant forall px, py | rect.x <= px < rect.x + x && rect.y <= py < rect.y + rect.h ::
                  !PixelHit(rect1, rect2, hitmask1, hitmask2, px, py)
    {
      var column := rect.x + x;
      for y := 0 to rect.h
        invariant forall px, py | rect.x <= px < rect.x + x && rect.y <= py < rect.y + rect.h ::
                    !PixelHit(rect1, rect2, hitmask1, hitmask2, px, py)
        invariant forall py | rect.y <= py < rect.y + y ::
                    !PixelHit(rect1, rect2, hitmask1, hitmask2, column, py)
      {
        assert Contains(rect, column, rect.y + y);
        if hitmask1[x1 + x][y1 + y] && hitmask2[x2 + x][y2 + y] {
          assert PixelHit(rect1, rect2, hitmask1, hitmask2, column, rect.y + y);
          return true;
        }
      }
    }
    return false;
  }

  /** Swapping the two sprites does not change the verdict. */
  lemma OverlapSymmetric(r1: Rect, r2: Rect, m1: Mask, m2: Mask)
    ensures Overlap(r1, r2, m1, m2) <==> Overlap(r2, r1, m2, m1)
  {
    if Overlap(r1, r2, m1, m2) {
      var px, py :| r1.x <= px < r1.x + r1.w && r1.y <= py < r1.y + r1.h && PixelHit(r1, r2, m1, m2, px, py);
      assert PixelHit(r2, r1, m2, m1, px, py);
    }
    if Overlap(r2, r1, m2, m1) {
      var px, py :| r2.x <= px < r2.x + r2.w && r2.y <= py < r2.y + r2.h && PixelHit(r2, r1, m2, m1, px, py);
      assert PixelHit(r1, r2, m1, m2, px, py);
    }
  }

  /** Boxes whose intersection has zero width or height never collide. */
  lemma EmptyClipNoCollision(r1: Rect, r2: Rect, m1: Mask, m2: Mask)
    requires Clip(r1, r2).w == 0 || Clip(r1, r2).h == 0
    ensures !Overlap(r1, r2, m1, m2)
  {
  }
}
