/** The material guess of the React book (guessMaterialFromImg, channelVarianceOf),
    from the image already drawn into a 160x160 RGBA buffer.  The Sobel magnitude
    test hypot(Gx, Gy) > 60 is compared squared; the orientation in degrees, which
    the source takes from atan2 of the summed edge gradients, is supplied by the
    caller as a function of those sums. */
module Material {
  import opened Swatch
  import opened Raster

  /** The interior the Sobel scan visits: the border rows and columns are skipped. */
  const Inner: nat := 158
  const InnerPixels: nat := 24964

  /** The luminance L(x, y) of the scan. */
  function Luma(d: seq<int>, x: nat, y: nat): real
    requires IsImage(d) && x < Side && y < Side
  {
    var j := y * Side + x;
    0.299 * Ch(d, j, 0) as real + 0.587 * Ch(d, j, 1) as real + 0.114 * Ch(d, j, 2) as real
  }

  predicate Interior(x: nat, y: nat)
  {
    1 <= x <= Inner && 1 <= y <= Inner
  }

  /** The horizontal Sobel sum. */
  function Gx(d: seq<int>, x: nat, y: nat): real
    requires IsImage(d) && Interior(x, y)
  {
    (Luma(d, x + 1, y - 1) + 2.0 * Luma(d, x + 1, y) + Luma(d, x + 1, y + 1))
    - (Luma(d, x - 1, y - 1) + 2.0 * Luma(d, x - 1, y) + Luma(d, x - 1, y + 1))
  }

  /** The vertical Sobel sum. */
  function Gy(d: seq<int>, x: nat, y: nat): real
    requires IsImage(d) && Interior(x, y)
  {
    (Luma(d, x - 1, y + 1) + 2.0 * Luma(d, x, y + 1) + Luma(d, x + 1, y + 1))
    - (Luma(d, x - 1, y - 1) + 2.0 * Luma(d, x, y - 1) + Luma(d, x + 1, y - 1))
  }

  /** hypot(gx, gy) > 60 */
  predicate IsEdge(gx: real, gy: real)
  {
    gx * gx + gy * gy > 3600.0
  }

  /** The accumulators of the scan: summed edge gradients, edge count, visited count. */
  datatype EdgeStats = EdgeStats(sx: real, sy: real, edges: nat, n: nat)

  /** The scan's accumulators after one more pixel with gradients gx, gy. */
  function Visit(s: EdgeStats, gx: real, gy: real): EdgeStats
  {
    if IsEdge(gx, gy) then EdgeStats(s.sx + gx, s.sy + gy, s.edges + 1, s.n + 1)
    else EdgeStats(s.sx, s.sy, s.edges, s.n + 1)
  }

  /** A scan position: row y, column x of the interior, or (159, 1) once every row is done. */
  predicate ScanPos(y: nat, x: nat)
  {
    1 <= y <= Inner + 1 && 1 <= x <= Inner + 1 && (y == Inner + 1 ==> x == 1)
  }

  /** The accumulators when the scan reaches column x of row y: every earlier row and the
      first x - 1 pixels of row y visited, left to right. */
  function ScanStats(d: seq<int>, y: nat, x: nat): EdgeStats
    requires IsImage(d) && ScanPos(y, x)
    decreases y, x
  {
    if x == 1 then
      if y == 1 then EdgeStats(0.0, 0.0, 0, 0) else ScanStats(d, y - 1, Inner + 1)
    else
      Visit(ScanStats(d, y, x - 1), Gx(d, x - 1, y), Gy(d, x - 1, y))
  }

  /** The accumulators after the whole interior. */
  function FullScan(d: seq<int>): EdgeStats
    requires IsImage(d)
  {
    ScanStats(d, Inner + 1, 1)
  }

  /** Every pixel is counted once, and the edges are among them. */
  lemma {:induction false} ScanCounts(d: seq<int>, y: nat, x: nat)
    requires IsImage(d) && ScanPos(y, x)
    ensures ScanStats(d, y, x).n == (y - 1) * 158 + (x - 1)
    ensures ScanStats(d, y, x).edges <= ScanStats(d, y, x).n
    decreases y, x
  {
    if x == 1 {
      if y > 1 {
        ScanCounts(d, y - 1, Inner + 1);
      }
    } else {
      ScanCounts(d, y, x - 1);
    }
  }

  /** n is 158 * 158 after the scan. */
  lemma FullScanCount(d: seq<int>)
    requires IsImage(d)
    ensures FullScan(d).n == InnerPixels
    ensures FullScan(d).edges <= InnerPixels
  {
    ScanCounts(d, Inner + 1, 1);
  }

  /** edges / n over the whole interior. */
  function EdgeRatio(d: seq<int>): real
    requires IsImage(d)
  {
    FullScan(d).edges as real / InnerPixels as real
  }

  lemma EdgeRatioBounds(d: seq<int>)
    requires IsImage(d)
    ensures 0.0 <= EdgeRatio(d) <= 1.0
  {
    FullScanCount(d);
  }

  /** The body of the inner loop: the Sobel gradients of one pixel and the accumulator updates. */
  method VisitPixel(d: seq<int>, x: nat, y: nat, s0: EdgeStats) returns (s: EdgeStats)
    requires IsImage(d) && Interior(x, y)
    ensures s == Visit(s0, Gx(d, x, y), Gy(d, x, y))
  {
    s := s0;
    var gx := Gx(d, x, y);
    var gy := Gy(d, x, y);
    if gx * gx + gy * gy > 3600.0 {
      s := EdgeStats(s.sx + gx, s.sy + gy, s.edges + 1, s.n);
    }
    s := s.(n := s.n + 1);
  }

  /** The inner loop: one interior row, left to right. */
  method ScanRow(d: seq<int>, y: nat, s0: EdgeStats) returns (s: EdgeStats)
    requires IsImage(d) && 1 <= y <= Inner && s0 == ScanStats(d, y, 1)
    ensures s == ScanStats(d, y, Inner + 1)
  {
    s := s0;
    var x := 1;
    while x < Side - 1
      invariant 1 <= x <= Side - 1
      invariant s == ScanStats(d, y, x)
    {
      s := VisitPixel(d, x, y, s);
      x := x + 1;
    }
  }

  /** The nested Sobel loops of the scan. */
  method EdgeScan(d: seq<int>) returns (s: EdgeStats)
    requires IsImage(d)
    ensures s == FullScan(d)
  {
    s := EdgeStats(0.0, 0.0, 0, 0);
    var y := 1;
    while y < Side - 1
      invariant 1 <= y <= Side - 1
      invariant s == ScanStats(d, y, 1)
    {
      s := ScanRow(d, y, s);
      y := y + 1;
    }
  }

  // ----- channelVarianceOf -----

  /** The sum of channel c over the first k pixels. */
  function ChannelSum(d: seq<int>, c: nat, k: nat): int
    requires IsImage(d) && c < 3 && k <= Pixels
  {
    if k == 0 then 0 else ChannelSum(d, c, k - 1) + Ch(d, k - 1, c)
  }

  function Mean(d: seq<int>, c: nat): real
    requires IsImage(d) && c < 3
  {
    ChannelSum(d, c, Pixels) as real / Pixels as real
  }

  function Sq(x: real): (r: real)
    ensures r >= 0.0
  {
    x * x
  }

  /** The squared deviation of pixel j from the channel means (mr, mg, mb). */
  function Deviation(d: seq<int>, j: nat, mr: real, mg: real, mb: real): real
    requires IsImage(d) && j < Pixels
  {
    Sq(Ch(d, j, 0) as real - mr) + Sq(Ch(d, j, 1) as real - mg) + Sq(Ch(d, j, 2) as real - mb)
  }

  function DeviationSum(d: seq<int>, k: nat, mr: real, mg: real, mb: real): real
    requires IsImage(d) && k <= Pixels
  {
    if k == 0 then 0.0 else DeviationSum(d, k - 1, mr, mg, mb) + Deviation(d, k - 1, mr, mg, mb)
  }

  /** What channelVarianceOf returns: the mean squared distance of a pixel from the mean colour. */
  function Variance(d: seq<int>): real
    requires IsImage(d)
  {
    DeviationSum(d, Pixels, Mean(d, 0), Mean(d, 1), Mean(d, 2)) / Pixels as real
  }

  /** The two passes of channelVarianceOf. */
  method ChannelVariance(d: seq<int>) returns (v: real)
    requires IsImage(d)
    ensures v == Variance(d)
  {
    var sr, sg, sb, n := 0, 0, 0, 0;
    var i := 0;
    while i < |d|
      invariant i == 4 * n && n <= Pixels
      invariant sr == ChannelSum(d, 0, n) && sg == ChannelSum(d, 1, n) && sb == ChannelSum(d, 2, n)
    {
      sr := sr + d[i];
      sg := sg + d[i + 1];
      sb := sb + d[i + 2];
      n := n + 1;
      i := i + 4;
    }
    var mr, mg, mb := sr as real / n as real, sg as real / n as real, sb as real / n as real;
    var acc := 0.0;
    i := 0;
    ghost var k := 0;
    while i < |d|
      invariant i == 4 * k && k <= Pixels
      invariant acc == DeviationSum(d, k, mr, mg, mb)
    {
      acc := acc + (Sq(d[i] as real - mr) + Sq(d[i + 1] as real - mg) + Sq(d[i + 2] as real - mb));
      i := i + 4;
      k := k + 1;
    }
    v := acc / n as real;
  }

  lemma {:induction false} DeviationSumNonneg(d: seq<int>, k: nat, mr: real, mg: real, mb: real)
    requires IsImage(d) && k <= Pixels
    ensures DeviationSum(d, k, mr, mg, mb) >= 0.0
  {
    if k > 0 {
      DeviationSumNonneg(d, k - 1, mr, mg, mb);
    }
  }

  lemma VarianceNonneg(d: seq<int>)
    requires IsImage(d)
    ensures Variance(d) >= 0.0
  {
    DeviationSumNonneg(d, Pixels, Mean(d, 0), Mean(d, 1), Mean(d, 2));
  }

  lemma {:induction false} ChannelSumSolid(d: seq<int>, c: nat, k: nat)
    requires IsImage(d) && c < 3 && k <= Pixels && Solid(d)
    ensures ChannelSum(d, c, k) == k * Ch(d, 0, c)
  {
    if k > 0 {
      ChannelSumSolid(d, c, k - 1);
    }
  }

  lemma {:induction false} DeviationSumSolid(d: seq<int>, k: nat)
    requires IsImage(d) && k <= Pixels && Solid(d)
    ensures DeviationSum(d, k, Ch(d, 0, 0) as real, Ch(d, 0, 1) as real, Ch(d, 0, 2) as real) == 0.0
  {
    if k > 0 {
      DeviationSumSolid(d, k - 1);
    }
  }

  /** A single-colour image has no variance. */
  lemma SolidVarianceZero(d: seq<int>)
    requires IsImage(d) && Solid(d)
    ensures Variance(d) == 0.0
  {
    ChannelSumSolid(d, 0, Pixels);
    ChannelSumSolid(d, 1, Pixels);
    ChannelSumSolid(d, 2, Pixels);
    assert Mean(d, 0) == Ch(d, 0, 0) as real;
    assert Mean(d, 1) == Ch(d, 0, 1) as real;
    assert Mean(d, 2) == Ch(d, 0, 2) as real;
    DeviationSumSolid(d, Pixels);
  }

  // ----- the decision ladder -----

  /** The classification from the edge ratio, the orientation in degrees and the roughness. */
  function Classify(ratio: real, deg: real, rough: real): (m: string)
    ensures KnownMaterial(m) && m != "sequin"
  {
    if ratio < 0.02 then "satin"
    else if ratio > 0.10 then
      if deg > 30.0 && deg < 60.0 then "twill"
      else if deg < 15.0 || deg > 75.0 then "rib"
      else "herringbone"
    else if rough > 1600.0 then "leather"
    else "plain"
  }

  /** The ladder, rung by rung: the first test that holds decides. */
  lemma ClassifyLadder(ratio: real, deg: real, rough: real)
    ensures Classify(ratio, deg, rough) == "satin" <==> ratio < 0.02
    ensures Classify(ratio, deg, rough) == "twill" <==> ratio > 0.10 && 30.0 < deg < 60.0
    ensures Classify(ratio, deg, rough) == "rib" <==>
              ratio > 0.10 && !(30.0 < deg < 60.0) && (deg < 15.0 || deg > 75.0)
    ensures Classify(ratio, deg, rough) == "herringbone" <==>
              ratio > 0.10 && !(30.0 < deg < 60.0) && 15.0 <= deg <= 75.0
    ensures Classify(ratio, deg, rough) == "leather" <==> 0.02 <= ratio <= 0.10 && rough > 1600.0
    ensures Classify(ratio, deg, rough) == "plain" <==> 0.02 <= ratio <= 0.10 && rough <= 1600.0
  {
  }

  /** The guess is always one of the six woven or leather materials: never "auto" nor "sequin". */
  lemma ClassifyKnown(ratio: real, deg: real, rough: real)
    ensures KnownMaterial(Classify(ratio, deg, rough))
    ensures Classify(ratio, deg, rough) != "auto" && Classify(ratio, deg, rough) != "sequin"
  {
  }

  /** guessMaterialFromImg on the buffer d, with degOf standing for |atan2(sy, sx)| in degrees. */
  function GuessSpec(d: seq<int>, degOf: (real, real) -> real): string
    requires IsImage(d)
  {
    var s := FullScan(d);
    Classify(EdgeRatio(d), degOf(s.sx, s.sy), Variance(d))
  }

  method GuessMaterial(d: seq<int>, degOf: (real, real) -> real) returns (m: string)
    requires IsImage(d)
    ensures m == GuessSpec(d, degOf)
  {
    var s := EdgeScan(d);
    FullScanCount(d);
    var ratio := s.edges as real / s.n as real;
    var deg := degOf(s.sx, s.sy);
    if ratio < 0.02 {
      return "satin";
    }
    if ratio > 0.10 {
      if deg > 30.0 && deg < 60.0 {
        return "twill";
      }
      if deg < 15.0 || deg > 75.0 {
        return "rib";
      }
      return "herringbone";
    }
    var rough := ChannelVariance(d);
    m := if rough > 1600.0 then "leather" else "plain";
  }

  lemma {:induction false} SolidNoEdges(d: seq<int>, y: nat, x: nat)
    requires IsImage(d) && Solid(d) && ScanPos(y, x)
    ensures ScanStats(d, y, x).edges == 0
    decreases y, x
  {
    if x == 1 {
      if y > 1 {
        SolidNoEdges(d, y - 1, Inner + 1);
      }
    } else {
      SolidNoEdges(d, y, x - 1);
      SolidGradientZero(d, x - 1, y);
    }
  }

  lemma SolidGradientZero(d: seq<int>, x: nat, y: nat)
    requires IsImage(d) && Solid(d) && Interior(x, y)
    ensures Gx(d, x, y) == 0.0 && Gy(d, x, y) == 0.0
  {
    forall a: nat, b: nat | a < Side && b < Side
      ensures Luma(d, a, b) == Luma(d, 0, 0)
    {
      var j := b * Side + a;
      assert Ch(d, j, 0) == Ch(d, 0, 0) && Ch(d, j, 1) == Ch(d, 0, 1) && Ch(d, j, 2) == Ch(d, 0, 2);
    }
  }

  /** A single-colour photo shows no edges and is guessed to be satin, whatever its orientation. */
  lemma SolidIsSatin(d: seq<int>, degOf: (real, real) -> real)
    requires IsImage(d) && Solid(d)
    ensures GuessSpec(d, degOf) == "satin"
  {
    SolidNoEdges(d, Inner + 1, 1);
  }
}
