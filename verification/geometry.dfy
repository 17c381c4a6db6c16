/**
 Integer boxes (pygame `Rect`) and per-pixel opacity masks.
 */
module Geometry {

  /** An axis-aligned box: left edge `x`, top edge `y`, size `w` by `h`. */
  datatype Rect = Rect(x: int, y: int, w: nat, h: nat)

  /** The pixel (px, py) lies inside `r`. */
  predicate Contains(r: Rect, px: int, py: int) {
    r.x <= px < r.x + r.w && r.y <= py < r.y + r.h
  }

  /** An opacity mask indexed `[x][y]`: one column per x. */
  type Mask = seq<seq<bool>>

  /** The mask has `w` columns of `h` entries each. */
  predicate Fits(m: Mask, w: nat, h: nat) {
    |m| == w && forall c | 0 <= c < |m| :: |m[c]| == h
  }

  function Max(a: int, b: int): int { if a < b then b else a }
  function Min(a: int, b: int): int { if a < b then a else b }

  /**
   `a.clip(b)`: the intersection of the two boxes; when they share no pixel,
   a box of size zero at the corner of `a`.
   */
  function Clip(a: Rect, b: Rect): (r: Rect)
    ensures forall px, py :: Contains(r, px, py) <==> Contains(a, px, py) && Contains(b, px, py)
    ensures r.w == 0 || r.h == 0 ==> r == Rect(a.x, a.y, 0, 0)
  {
    var left := Max(a.x, b.x);
    var right := Min(a.x + a.w, b.x + b.w);
    var top := Max(a.y, b.y);
    var bottom := Min(a.y + a.h, b.y + b.h);
    if left < right && top < bottom then Rect(left, top, right - left, bottom - top)
    else Rect(a.x, a.y, 0, 0)
  }
}
