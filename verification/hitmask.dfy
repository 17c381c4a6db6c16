/**
 Hit masks: the opaque pixels of a sprite, computed once per sprite from its
 alpha channel.
 */
module Hitmask {
  import opened Geometry

  /** A decoded sprite: its size and its alpha channel, stored row by row. */
  datatype Image = Image(width: nat, height: nat, alpha: seq<seq<nat>>) {
    predicate Valid() {
      |alpha| == height && forall row | 0 <= row < |alpha| :: |alpha[row]| == width
    }

    /** The alpha value of pixel (x, y), as `get_at((x, y))[3]` reads it. */
    function AlphaAt(x: nat, y: nat): nat
      requires Valid() && x < width && y < height
    {
      alpha[y][x]
    }
  }

  /**
   Builds the `[x][y]` table, column by column, that is true exactly where the
   image's alpha is non-zero.
   */
  method GetHitmask(image: Image) returns (mask: Mask)
    requires image.Valid()
    ensures Fits(mask, image.width, image.height)
    ensures forall x, y | 0 <= x < image.width && 0 <= y < image.height ::
              mask[x][y] <==> image.AlphaAt(x, y) != 0
  {
    mask := [];
    for x := 0 to image.width
      invariant Fits(mask, x, image.height)
      invariant forall i, j | 0 <= i < x && 0 <= j < image.height :: mask[i][j] <==> image.AlphaAt(i, j) != 0
    {
      var column: seq<bool> := [];
      for y := 0 to image.height
        invariant |column| == y
        invariant forall j | 0 <= j < y :: column[j] <==> image.AlphaAt(x, j) != 0
      {
        column := column + [image.AlphaAt(x, y) != 0];
      }
      mask := mask + [column];
    }
  }
}
