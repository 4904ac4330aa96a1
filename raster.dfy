/** The 160x160 RGBA canvas both colour readers of the book draw a photo into
    before reading its pixels (getImageData(0, 0, 160, 160).data). */
module Raster {
  /** The canvas side. */
  const Side: nat := 160

  /** The number of pixels on the canvas. */
  const Pixels: nat := 25600

  predicate IsImage(d: seq<int>)
  {
    |d| == 4 * Pixels
  }

  /** Channel c (0 red, 1 green, 2 blue, 3 alpha) of pixel j, pixels numbered row by row. */
  function Ch(d: seq<int>, j: nat, c: nat): int
    requires IsImage(d) && j < Pixels && c < 4
  {
    d[4 * j + c]
  }

  /** Every pixel has the red, green and blue of the first one. */
  predicate Solid(d: seq<int>)
    requires IsImage(d)
  {
    forall j, c :: 0 <= j < Pixels && 0 <= c < 3 ==> Ch(d, j, c) == Ch(d, 0, c)
  }
}
