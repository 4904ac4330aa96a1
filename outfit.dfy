/** The outfit colour extractor of the plain-script book (extractTopBottomColors),
    from the photo already drawn into the 160x160 canvas: the mean border colour,
    two 4-bit-per-channel histograms of the clothing window (upper and lower half)
    that skip background-like, greyish and near-white pixels, and the choice of the
    top, bottom and accent colours from them.  Math.exp and Math.log enter the pick
    score only; they are the caller's functions here. */
module Outfit {
  import opened Common
  import opened Color
  import opened Sorting
  import opened Raster

  /** The clothing window: columns Left .. Right - 1, upper rows TopRow .. MidRow - 1,
      lower rows MidRow .. BottomRow - 1. */
  const Left: nat := 28
  const Right: nat := 131
  const TopRow: nat := 19
  const MidRow: nat := 80
  const BottomRow: nat := 140

  /** The window bounds are the floors of 0.18, 0.82, 0.12, 0.50 and 0.88 of the side;
      the upper and lower halves share no row. */
  lemma Windows()
    ensures Left == (160.0 * 0.18).Floor && Right == (160.0 * 0.82).Floor
    ensures TopRow == (160.0 * 0.12).Floor && MidRow == (160.0 * 0.50).Floor
    ensures BottomRow == (160.0 * 0.88).Floor
    ensures forall y: int :: UpperRow(y) ==> !LowerRow(y)
  {
  }

  predicate UpperRow(y: int) { TopRow <= y < MidRow }
  predicate LowerRow(y: int) { MidRow <= y < BottomRow }

  // ----- avgBorder -----

  /** Channel c summed over the first k pixels of the top row and of the bottom row. */
  function RowsSum(d: seq<int>, c: nat, k: nat): int
    requires IsImage(d) && c < 3 && k <= Side
  {
    if k == 0 then 0 else RowsSum(d, c, k - 1) + Ch(d, k - 1, c) + Ch(d, 159 * 160 + (k - 1), c)
  }

  /** Channel c summed over the first k pixels of the left column and of the right column. */
  function ColumnsSum(d: seq<int>, c: nat, k: nat): int
    requires IsImage(d) && c < 3 && k <= Side
  {
    if k == 0 then 0 else ColumnsSum(d, c, k - 1) + Ch(d, (k - 1) * 160, c) + Ch(d, (k - 1) * 160 + 159, c)
  }

  /** The border samples: both rows and both columns, corners counted twice, 4 * 160 in all. */
  const BorderSamples: nat := 640

  function BorderMean(d: seq<int>): Rgb
    requires IsImage(d)
  {
    Rgb((RowsSum(d, 0, Side) + ColumnsSum(d, 0, Side)) as real / BorderSamples as real,
        (RowsSum(d, 1, Side) + ColumnsSum(d, 1, Side)) as real / BorderSamples as real,
        (RowsSum(d, 2, Side) + ColumnsSum(d, 2, Side)) as real / BorderSamples as real)
  }

  method AvgBorder(d: seq<int>) returns (m: Rgb)
    requires IsImage(d)
    ensures m == BorderMean(d)
  {
    var sr, sg, sb, n := 0, 0, 0, 0;
    var x := 0;
    while x < Side
      invariant 0 <= x <= Side && n == 2 * x
      invariant sr == RowsSum(d, 0, x) && sg == RowsSum(d, 1, x) && sb == RowsSum(d, 2, x)
    {
      var i1, i2 := (0 * 160 + x) * 4, (159 * 160 + x) * 4;
      sr, sg, sb, n := sr + d[i1], sg + d[i1 + 1], sb + d[i1 + 2], n + 1;
      sr, sg, sb, n := sr + d[i2], sg + d[i2 + 1], sb + d[i2 + 2], n + 1;
      x := x + 1;
    }
    var y := 0;
    while y < Side
      invariant 0 <= y <= Side && n == 2 * Side + 2 * y
      invariant sr == RowsSum(d, 0, Side) + ColumnsSum(d, 0, y)
      invariant sg == RowsSum(d, 1, Side) + ColumnsSum(d, 1, y)
      invariant sb == RowsSum(d, 2, Side) + ColumnsSum(d, 2, y)
    {
      var i1, i2 := (y * 160 + 0) * 4, (y * 160 + 159) * 4;
      sr, sg, sb, n := sr + d[i1], sg + d[i1 + 1], sb + d[i1 + 2], n + 1;
      sr, sg, sb, n := sr + d[i2], sg + d[i2 + 1], sb + d[i2 + 2], n + 1;
      y := y + 1;
    }
    m := Rgb(sr as real / n as real, sg as real / n as real, sb as real / n as real);
  }

  lemma {:induction false} RowsSumSolid(d: seq<int>, c: nat, k: nat)
    requires IsImage(d) && Solid(d) && c < 3 && k <= Side
    ensures RowsSum(d, c, k) == 2 * k * Ch(d, 0, c)
  {
    if k > 0 {
      RowsSumSolid(d, c, k - 1);
    }
  }

  lemma {:induction false} ColumnsSumSolid(d: seq<int>, c: nat, k: nat)
    requires IsImage(d) && Solid(d) && c < 3 && k <= Side
    ensures ColumnsSum(d, c, k) == 2 * k * Ch(d, 0, c)
  {
    if k > 0 {
      ColumnsSumSolid(d, c, k - 1);
    }
  }

  /** On a one-colour photo the border mean is that colour: the 640 samples are all it sums. */
  lemma SolidBorderMean(d: seq<int>)
    requires IsImage(d) && Solid(d)
    ensures BorderMean(d) == Rgb(Ch(d, 0, 0) as real, Ch(d, 0, 1) as real, Ch(d, 0, 2) as real)
  {
    RowsSumSolid(d, 0, Side);
    RowsSumSolid(d, 1, Side);
    RowsSumSolid(d, 2, Side);
    ColumnsSumSolid(d, 0, Side);
    ColumnsSumSolid(d, 1, Side);
    ColumnsSumSolid(d, 2, Side);
  }

  // ----- the pixel filters -----

  /** bgDist: the least distance from the border colour a clothing pixel must keep. */
  function BgDist(strength: real): real { 40.0 + strength * 0.4 }

  /** minSat: the least saturation a clothing pixel must have. */
  function MinSat(strength: real): real { 0.10 + strength * 0.004 }

  const MaxLum: real := 250.0

  /** Math.hypot(...) < t, for the squared distance d2. */
  predicate CloserThan(d2: real, t: real)
  {
    t > 0.0 && d2 < t * t
  }

  /** The pixel (r, g, b, a) is counted: opaque enough, far enough from the border colour,
      saturated enough and not too light. */
  predicate Kept(r: int, g: int, b: int, a: int, border: Rgb, strength: real)
  {
    var p := Rgb(r as real, g as real, b as real);
    && a >= 8
    && !CloserThan(Dist2(p, border), BgDist(strength))
    && !(SatOf(p.r, p.g, p.b) < MinSat(strength))
    && !(LumOf(p.r, p.g, p.b) > MaxLum)
  }

  lemma CloserThanMonotone(d2: real, t1: real, t2: real)
    requires t1 <= t2 && CloserThan(d2, t1)
    ensures CloserThan(d2, t2)
  {
    assert t1 * t1 <= t1 * t2;
    assert t1 * t2 <= t2 * t2;
  }

  /** A stronger setting raises both thresholds, so it keeps no pixel a weaker one drops. */
  lemma KeptMonotone(r: int, g: int, b: int, a: int, border: Rgb, s1: real, s2: real)
    requires s1 <= s2 && Kept(r, g, b, a, border, s2)
    ensures Kept(r, g, b, a, border, s1)
  {
    var p := Rgb(r as real, g as real, b as real);
    if CloserThan(Dist2(p, border), BgDist(s1)) {
      CloserThanMonotone(Dist2(p, border), BgDist(s1), BgDist(s2));
    }
  }

  // ----- bin keys -----

  /** (r >> 4) << 8 | (g >> 4) << 4 | (b >> 4): the three nibbles occupy disjoint bits,
      so the bitwise or is their sum. */
  function BinKey(r: int, g: int, b: int): (k: int)
    ensures 0 <= r <= 255 && 0 <= g <= 255 && 0 <= b <= 255 ==> 0 <= k < 4096
  {
    (r / 16) * 256 + (g / 16) * 16 + b / 16
  }

  /** (k >> 8) & 0xF, (k >> 4) & 0xF and k & 0xF for a key in 0 .. 4095. */
  function RedNibble(k: int): int { (k / 256) % 16 }
  function GreenNibble(k: int): int { (k / 16) % 16 }
  function BlueNibble(k: int): int { k % 16 }

  /** Unpacking a key gives back the top nibble of each channel, so each decoded channel
      (nibble * 17) is 17 * (c div 16). */
  lemma BinKeyDecode(r: int, g: int, b: int)
    requires 0 <= r <= 255 && 0 <= g <= 255 && 0 <= b <= 255
    ensures RedNibble(BinKey(r, g, b)) == r / 16
    ensures GreenNibble(BinKey(r, g, b)) == g / 16
    ensures BlueNibble(BinKey(r, g, b)) == b / 16
  {
    var k := BinKey(r, g, b);
    assert k == (r / 16) * 256 + ((g / 16) * 16 + b / 16);
    assert k / 256 == r / 16;
    assert k / 16 == (r / 16) * 16 + g / 16;
  }

  /** Two pixels share a bin exactly when they agree in the top nibble of every channel. */
  lemma BinKeySame(r1: int, g1: int, b1: int, r2: int, g2: int, b2: int)
    requires 0 <= r1 <= 255 && 0 <= g1 <= 255 && 0 <= b1 <= 255
    requires 0 <= r2 <= 255 && 0 <= g2 <= 255 && 0 <= b2 <= 255
    ensures BinKey(r1, g1, b1) == BinKey(r2, g2, b2) <==>
            r1 / 16 == r2 / 16 && g1 / 16 == g2 / 16 && b1 / 16 == b2 / 16
  {
    BinKeyDecode(r1, g1, b1);
    BinKeyDecode(r2, g2, b2);
  }

  /** rgbToHex(R, G, B) of the bin's representative colour. */
  function BinHex(k: int): (s: string)
    ensures |s| == 7 && s[0] == '#' && forall i :: 1 <= i < 7 ==> IsLowerHex(s[i])
  {
    RgbToHex((17 * RedNibble(k)) as real, (17 * GreenNibble(k)) as real, (17 * BlueNibble(k)) as real)
  }

  /** The colour chosen for a bin reads back as its representative. */
  lemma BinHexDecodes(k: int)
    ensures HexToRgb(BinHex(k)) == Rgb((17 * RedNibble(k)) as real, (17 * GreenNibble(k)) as real, (17 * BlueNibble(k)) as real)
  {
    HexRoundTripBytes(17 * RedNibble(k), 17 * GreenNibble(k), 17 * BlueNibble(k));
  }

  // ----- the histogram -----

  /** The Map of bin counts, as its entries in insertion order. */
  type Bins = seq<(int, nat)>

  predicate DistinctKeys(b: Bins)
  {
    forall i, j :: 0 <= i < j < |b| ==> b[i].0 != b[j].0
  }

  function KeySet(b: Bins): set<int>
  {
    set i | 0 <= i < |b| :: b[i].0
  }

  /** The entries of a Map: distinct keys, every count at least 1. */
  predicate ValidBins(b: Bins)
  {
    DistinctKeys(b) && forall i :: 0 <= i < |b| ==> b[i].1 >= 1
  }

  /** bins.get(k) || 0 */
  function Lookup(b: Bins, k: int): nat
  {
    if b == [] then 0 else if b[0].0 == k then b[0].1 else Lookup(b[1..], k)
  }

  /** bins.set(k, (bins.get(k) || 0) + 1): an existing entry is updated where it is,
      a new key goes to the end. */
  function Bump(b: Bins, k: int): Bins
  {
    if b == [] then [(k, 1)]
    else if b[0].0 == k then [(k, b[0].1 + 1)] + b[1..]
    else [b[0]] + Bump(b[1..], k)
  }

  function Total(b: Bins): nat
  {
    if b == [] then 0 else b[0].1 + Total(b[1..])
  }

  /** Bumping k adds one to k's count and leaves every other count as it was. */
  lemma {:induction false} BumpLookup(b: Bins, k: int, q: int)
    ensures Lookup(Bump(b, k), q) == Lookup(b, q) + (if q == k then 1 else 0)
  {
    if b != [] && b[0].0 != k {
      BumpLookup(b[1..], k, q);
      assert Bump(b, k)[1..] == Bump(b[1..], k);
    }
  }

  lemma {:induction false} BumpTotal(b: Bins, k: int)
    ensures Total(Bump(b, k)) == Total(b) + 1
  {
    if b != [] && b[0].0 != k {
      BumpTotal(b[1..], k);
      assert Bump(b, k)[1..] == Bump(b[1..], k);
    } else if b != [] {
      assert Bump(b, k)[1..] == b[1..];
    }
  }

  lemma KeySetCons(b: Bins)
    requires b != []
    ensures KeySet(b) == {b[0].0} + KeySet(b[1..])
  {
    var t := b[1..];
    forall q ensures q in KeySet(b) <==> q in {b[0].0} + KeySet(t) {
      if q in KeySet(b) {
        var i :| 0 <= i < |b| && b[i].0 == q;
        if i > 0 { assert t[i - 1].0 == q; }
      }
      if q in KeySet(t) {
        var i :| 0 <= i < |t| && t[i].0 == q;
        assert b[i + 1].0 == q;
      }
    }
  }

  /** Bumping adds k to the keys. */
  lemma {:induction false} BumpKeys(b: Bins, k: int)
    ensures KeySet(Bump(b, k)) == KeySet(b) + {k}
  {
    var r := Bump(b, k);
    if b == [] {
      assert r[0].0 == k;
    } else {
      KeySetCons(b);
      KeySetCons(r);
      if b[0].0 != k {
        BumpKeys(b[1..], k);
        assert r[1..] == Bump(b[1..], k);
      } else {
        assert r[1..] == b[1..];
      }
    }
  }

  /** A new key goes behind the others; an existing one keeps every key where it was. */
  lemma {:induction false} BumpPlaces(b: Bins, k: int)
    ensures k !in KeySet(b) ==> Bump(b, k) == b + [(k, 1)]
    ensures k in KeySet(b) ==> |Bump(b, k)| == |b| && forall i :: 0 <= i < |b| ==> Bump(b, k)[i].0 == b[i].0
  {
    if b != [] {
      KeySetCons(b);
      if b[0].0 != k {
        BumpPlaces(b[1..], k);
        var r := Bump(b, k);
        assert r == [b[0]] + Bump(b[1..], k);
        if k in KeySet(b) {
          forall i | 0 <= i < |b| ensures r[i].0 == b[i].0 {
            if i > 0 { assert r[i] == Bump(b[1..], k)[i - 1] && b[i] == b[1..][i - 1]; }
          }
        } else {
          assert b == [b[0]] + b[1..];
        }
      }
    }
  }

  /** The rest of a Map's entries are a Map's entries without the first key. */
  lemma ValidTail(b: Bins)
    requires b != [] && ValidBins(b)
    ensures ValidBins(b[1..]) && b[0].0 !in KeySet(b[1..])
  {
    var t := b[1..];
    forall i, j | 0 <= i < j < |t| ensures t[i].0 != t[j].0 {
      assert t[i] == b[i + 1] && t[j] == b[j + 1];
    }
    forall i | 0 <= i < |t| ensures t[i].1 >= 1 && t[i].0 != b[0].0 {
      assert t[i] == b[i + 1];
    }
  }

  /** An entry with a new key and a positive count in front of a Map's entries. */
  lemma ValidCons(a: (int, nat), t: Bins)
    requires ValidBins(t) && a.1 >= 1 && a.0 !in KeySet(t)
    ensures ValidBins([a] + t)
  {
    var r := [a] + t;
    forall i, j | 0 <= i < j < |r| ensures r[i].0 != r[j].0 {
      assert r[j] == t[j - 1];
      if i == 0 {
        assert t[j - 1].0 in KeySet(t);
      } else {
        assert r[i] == t[i - 1];
      }
    }
    forall i | 0 <= i < |r| ensures r[i].1 >= 1 {
      if i > 0 { assert r[i] == t[i - 1]; }
    }
  }

  /** Bumping keeps the entries a Map's: distinct keys and positive counts. */
  lemma {:induction false} BumpValid(b: Bins, k: int)
    requires ValidBins(b)
    ensures ValidBins(Bump(b, k))
  {
    if b == [] {
      assert Bump(b, k) == [(k, 1)];
    } else {
      var t := b[1..];
      ValidTail(b);
      if b[0].0 == k {
        assert Bump(b, k) == [(k, b[0].1 + 1)] + t;
        ValidCons((k, b[0].1 + 1), t);
      } else {
        BumpValid(t, k);
        BumpKeys(t, k);
        assert Bump(b, k) == [b[0]] + Bump(t, k);
        ValidCons(b[0], Bump(t, k));
      }
    }
  }

  /** One pixel of the region scan: bump its bin if the filters keep it. */
  function Tally(d: seq<int>, border: Rgb, strength: real, bins: Bins, x: nat, y: nat): Bins
    requires IsImage(d) && x < Side && y < Side
  {
    var j := y * 160 + x;
    var r, g, b, a := Ch(d, j, 0), Ch(d, j, 1), Ch(d, j, 2), Ch(d, j, 3);
    if Kept(r, g, b, a, border, strength) then Bump(bins, BinKey(r, g, b)) else bins
  }

  /** The histogram when the scan of rows y0 .. has reached column x of row y. */
  function HistAt(d: seq<int>, border: Rgb, strength: real, y0: nat, y: nat, x: nat): Bins
    requires IsImage(d) && y0 <= y <= Side && Left <= x <= Right && (x > Left ==> y < Side)
    decreases y, x
  {
    if x == Left then
      if y == y0 then [] else HistAt(d, border, strength, y0, y - 1, Right)
    else
      Tally(d, border, strength, HistAt(d, border, strength, y0, y, x - 1), x - 1, y)
  }

  /** buildHist(y0, y1): every pixel of rows y0 .. y1 - 1 and columns Left .. Right - 1. */
  function Hist(d: seq<int>, border: Rgb, strength: real, y0: nat, y1: nat): Bins
    requires IsImage(d) && y0 <= y1 <= Side
  {
    HistAt(d, border, strength, y0, y1, Left)
  }

  method BuildHist(d: seq<int>, border: Rgb, strength: real, yStart: nat, yEnd: nat) returns (bins: Bins)
    requires IsImage(d) && yStart <= yEnd <= Side
    ensures bins == Hist(d, border, strength, yStart, yEnd)
  {
    bins := [];
    var y := yStart;
    while y < yEnd
      invariant yStart <= y <= yEnd
      invariant bins == HistAt(d, border, strength, yStart, y, Left)
    {
      var x := Left;
      while x < Right
        invariant Left <= x <= Right
        invariant bins == HistAt(d, border, strength, yStart, y, x)
      {
        var i := (y * 160 + x) * 4;
        var r, g, b, a := d[i], d[i + 1], d[i + 2], d[i + 3];
        if a >= 8 {
          var p := Rgb(r as real, g as real, b as real);
          var dist2, sat, lum := Dist2(p, border), SatOf(p.r, p.g, p.b), LumOf(p.r, p.g, p.b);
          if !(CloserThan(dist2, BgDist(strength)) || sat < MinSat(strength) || lum > MaxLum) {
            bins := Bump(bins, BinKey(r, g, b));
          }
        }
        x := x + 1;
      }
      y := y + 1;
    }
  }

  /** One pixel keeps the histogram a Map's entries and adds at most one to its total. */
  lemma TallyValid(d: seq<int>, border: Rgb, strength: real, h: Bins, x: nat, y: nat)
    requires IsImage(d) && x < Side && y < Side && ValidBins(h)
    ensures ValidBins(Tally(d, border, strength, h, x, y))
  {
    var j := y * 160 + x;
    BumpValid(h, BinKey(Ch(d, j, 0), Ch(d, j, 1), Ch(d, j, 2)));
  }

  lemma TallyTotal(d: seq<int>, border: Rgb, strength: real, h: Bins, x: nat, y: nat)
    requires IsImage(d) && x < Side && y < Side
    ensures Total(Tally(d, border, strength, h, x, y)) <= Total(h) + 1
  {
    var j := y * 160 + x;
    BumpTotal(h, BinKey(Ch(d, j, 0), Ch(d, j, 1), Ch(d, j, 2)));
  }

  /** The histogram is a Map's entries. */
  lemma {:induction false} HistValid(d: seq<int>, border: Rgb, strength: real, y0: nat, y: nat, x: nat)
    requires IsImage(d) && y0 <= y <= Side && Left <= x <= Right && (x > Left ==> y < Side)
    ensures ValidBins(HistAt(d, border, strength, y0, y, x))
    decreases y, x
  {
    if x == Left {
      if y != y0 {
        HistValid(d, border, strength, y0, y - 1, Right);
      }
    } else {
      HistValid(d, border, strength, y0, y, x - 1);
      TallyValid(d, border, strength, HistAt(d, border, strength, y0, y, x - 1), x - 1, y);
    }
  }

  /** The counts add up to at most the number of pixels visited. */
  lemma {:induction false} HistTotal(d: seq<int>, border: Rgb, strength: real, y0: nat, y: nat, x: nat)
    requires IsImage(d) && y0 <= y <= Side && Left <= x <= Right && (x > Left ==> y < Side)
    ensures Total(HistAt(d, border, strength, y0, y, x)) <= (y - y0) * 103 + (x - Left)
    decreases y, x
  {
    if x == Left {
      if y != y0 {
        HistTotal(d, border, strength, y0, y - 1, Right);
      }
    } else {
      HistTotal(d, border, strength, y0, y, x - 1);
      TallyTotal(d, border, strength, HistAt(d, border, strength, y0, y, x - 1), x - 1, y);
    }
  }

  /** Either histogram holds at most as many pixels as its window has. */
  lemma HistWithinArea(d: seq<int>, border: Rgb, strength: real, y0: nat, y1: nat)
    requires IsImage(d) && y0 <= y1 <= Side
    ensures Total(Hist(d, border, strength, y0, y1)) <= (y1 - y0) * (Right - Left)
    ensures ValidBins(Hist(d, border, strength, y0, y1))
  {
    HistTotal(d, border, strength, y0, y1, Left);
    HistValid(d, border, strength, y0, y1, Left);
  }

  /** One pixel keeps the ordering of the counts between a weaker and a stronger filter. */
  lemma TallyMonotone(d: seq<int>, border: Rgb, s1: real, s2: real, h1: Bins, h2: Bins, x: nat, y: nat, k: int)
    requires IsImage(d) && x < Side && y < Side && s1 <= s2
    requires Lookup(h2, k) <= Lookup(h1, k)
    ensures Lookup(Tally(d, border, s2, h2, x, y), k) <= Lookup(Tally(d, border, s1, h1, x, y), k)
  {
    var j := y * 160 + x;
    var r, g, b, a := Ch(d, j, 0), Ch(d, j, 1), Ch(d, j, 2), Ch(d, j, 3);
    var key := BinKey(r, g, b);
    BumpLookup(h1, key, k);
    BumpLookup(h2, key, k);
    if Kept(r, g, b, a, border, s2) {
      KeptMonotone(r, g, b, a, border, s1, s2);
    }
  }

  lemma {:induction false} HistMonotoneAt(d: seq<int>, border: Rgb, s1: real, s2: real, y0: nat, y: nat, x: nat, k: int)
    requires IsImage(d) && y0 <= y <= Side && Left <= x <= Right && (x > Left ==> y < Side)
    requires s1 <= s2
    ensures Lookup(HistAt(d, border, s2, y0, y, x), k) <= Lookup(HistAt(d, border, s1, y0, y, x), k)
    decreases y, x
  {
    if x == Left {
      if y != y0 {
        HistMonotoneAt(d, border, s1, s2, y0, y - 1, Right, k);
      }
    } else {
      HistMonotoneAt(d, border, s1, s2, y0, y, x - 1, k);
      TallyMonotone(d, border, s1, s2, HistAt(d, border, s1, y0, y, x - 1),
                    HistAt(d, border, s2, y0, y, x - 1), x - 1, y, k);
    }
  }

  /** A stronger setting never raises a bin's count. */
  lemma HistMonotone(d: seq<int>, border: Rgb, s1: real, s2: real, y0: nat, y1: nat, k: int)
    requires IsImage(d) && y0 <= y1 <= Side && s1 <= s2
    ensures Lookup(Hist(d, border, s2, y0, y1), k) <= Lookup(Hist(d, border, s1, y0, y1), k)
  {
    HistMonotoneAt(d, border, s1, s2, y0, y1, Left, k);
  }

  // ----- pick and the accent -----

  /** The comparator (a, b) => b[1] - a[1]: most frequent first. */
  function ByCountDesc(e: (int, nat)): real { -(e.1 as real) }

  /** The six most frequent bins (fewer if there are fewer), most frequent first. */
  function Candidates(bins: Bins): (c: Bins)
    ensures |c| == if |bins| < 6 then |bins| else 6
  {
    var s := SortBy(bins, ByCountDesc);
    if |s| < 6 then s else s[..6]
  }

  /** The candidates are bins, they lead the count order, and no other bin is more frequent. */
  lemma CandidatesMostFrequent(bins: Bins)
    ensures var s, c := SortBy(bins, ByCountDesc), Candidates(bins);
      && c == s[..|c|]
      && (forall i :: 0 <= i < |c| ==> c[i] in bins)
      && (forall i, j :: 0 <= i < |c| <= j < |s| ==> s[j].1 <= c[i].1)
  {
    var s, c := SortBy(bins, ByCountDesc), Candidates(bins);
    forall i | 0 <= i < |c| ensures c[i] in bins {
      assert c[i] == s[i] && s[i] in multiset(s);
    }
    forall i, j | 0 <= i < |c| <= j < |s| ensures s[j].1 <= c[i].1 {
      assert c[i] == s[i] && ByCountDesc(s[i]) <= ByCountDesc(s[j]);
    }
  }

  /** The saturation factor of a bin's colour: 1 + satOf(R, G, B). */
  function SatFactor(k: int): real
  {
    1.0 + SatOf((17 * RedNibble(k)) as real, (17 * GreenNibble(k)) as real, (17 * BlueNibble(k)) as real)
  }

  /** The luminance factor: 0.5 + exp(-|lumOf(R, G, B) - 140| / 38). */
  function LumFactor(k: int, exp: real -> real): real
  {
    0.5 + exp(-AbsReal(LumOf((17 * RedNibble(k)) as real, (17 * GreenNibble(k)) as real, (17 * BlueNibble(k)) as real) - 140.0) / 38.0)
  }

  /** The frequency factor: 1 + log(1 + cnt). */
  function FreqFactor(n: nat, log: real -> real): real
  {
    1.0 + log(1.0 + n as real)
  }

  /** The colour part of the score: the saturation and luminance factors. */
  function ColourWeight(k: int, exp: real -> real): real
  {
    SatFactor(k) * LumFactor(k, exp)
  }

  /** The pick score of a bin; exp and log are the caller's. */
  function Score(e: (int, nat), exp: real -> real, log: real -> real): (sc: real)
    ensures (forall x :: exp(x) > 0.0) && (forall x :: x >= 1.0 ==> log(x) >= 0.0) ==> sc >= 0.5
  {
    ScoreFloor(e, exp, log);
    ColourWeight(e.0, exp) * FreqFactor(e.1, log)
  }

  lemma ScoreFloor(e: (int, nat), exp: real -> real, log: real -> real)
    ensures (forall x :: exp(x) > 0.0) && (forall x :: x >= 1.0 ==> log(x) >= 0.0) ==>
              ColourWeight(e.0, exp) * FreqFactor(e.1, log) >= 0.5
  {
    if (forall x :: exp(x) > 0.0) && (forall x :: x >= 1.0 ==> log(x) >= 0.0) {
      ColourWeightPositive(e.0, exp);
      assert FreqFactor(e.1, log) >= 1.0 by {
        assert 1.0 + e.1 as real >= 1.0;
      }
      ProductFloor(ColourWeight(e.0, exp), FreqFactor(e.1, log));
    }
  }

  lemma ProductFloor(w: real, f: real)
    requires w > 0.5 && f >= 1.0
    ensures w * f >= 0.5
  {
    assert w * f >= w * 1.0;
  }

  lemma MulLe(a: real, x: real, y: real)
    requires a > 0.0 && x <= y
    ensures a * x <= a * y
  {
  }

  lemma ColourWeightPositive(k: int, exp: real -> real)
    requires forall x :: exp(x) > 0.0
    ensures ColourWeight(k, exp) > 0.5
  {
    var s, l := SatFactor(k), LumFactor(k, exp);
    assert s >= 1.0 && l > 0.5;
    assert s * l >= l by {
      assert s * l == l + (s - 1.0) * l;
    }
  }

  /** With a monotone log, of two bins of the same colour the more frequent one scores at
      least as high. */
  lemma ScoreFavoursFrequent(k: int, n1: nat, n2: nat, exp: real -> real, log: real -> real)
    requires n1 <= n2
    requires forall x :: exp(x) > 0.0
    requires forall x, y :: 0.0 < x <= y ==> log(x) <= log(y)
    ensures Score((k, n1), exp, log) <= Score((k, n2), exp, log)
  {
    assert FreqFactor(n1, log) <= FreqFactor(n2, log) by {
      assert 0.0 < 1.0 + n1 as real <= 1.0 + n2 as real;
    }
    ColourWeightPositive(k, exp);
    MulLe(ColourWeight(k, exp), FreqFactor(n1, log), FreqFactor(n2, log));
  }

  datatype Scored = Scored(hex: string, score: real)

  function ByScoreDesc(s: Scored): real { -s.score }

  function ScoreAll(c: Bins, exp: real -> real, log: real -> real): (r: seq<Scored>)
    ensures |r| == |c|
    ensures forall i :: 0 <= i < |c| ==> r[i] == Scored(BinHex(c[i].0), Score(c[i], exp, log))
  {
    seq(|c|, i requires 0 <= i < |c| => Scored(BinHex(c[i].0), Score(c[i], exp, log)))
  }

  /** pick(bins, fallback) */
  function Pick(bins: Bins, fallback: string, exp: real -> real, log: real -> real): (hex: string)
    ensures |bins| == 0 ==> hex == fallback
    ensures |bins| > 0 ==> exists i :: 0 <= i < |Candidates(bins)| && hex == BinHex(Candidates(bins)[i].0)
  {
    if |bins| == 0 then fallback
    else
      var sc := ScoreAll(Candidates(bins), exp, log);
      SortByHead(sc, ByScoreDesc);
      var best := SortBy(sc, ByScoreDesc)[0];
      var i :| 0 <= i < |sc| && sc[i] == best;
      best.hex
  }

  /** The scored candidate the stable sort puts first: a best score, and the first one. */
  lemma BestScored(c: Bins, exp: real -> real, log: real -> real) returns (i: nat)
    requires |c| > 0
    ensures var sc := ScoreAll(c, exp, log);
      && i < |c| && SortBy(sc, ByScoreDesc)[0] == sc[i]
      && (forall j :: 0 <= j < |c| ==> sc[j].score <= sc[i].score)
      && (forall j :: 0 <= j < i ==> sc[j].score < sc[i].score)
  {
    var sc := ScoreAll(c, exp, log);
    i := SortByHeadFirst(sc, ByScoreDesc);
    forall j | 0 <= j < |c| ensures sc[j].score <= sc[i].score {
      assert sc[j] in sc && ByScoreDesc(sc[i]) <= ByScoreDesc(sc[j]);
    }
    forall j | 0 <= j < i ensures sc[j].score < sc[i].score {
      assert ByScoreDesc(sc[j]) > ByScoreDesc(sc[i]);
    }
  }

  /** The fallback comes back only for an empty histogram; otherwise the colour of a
      best-scoring candidate does, and of the first such candidate: the stable sort keeps
      a tie in candidate order. */
  lemma PickChoice(bins: Bins, fallback: string, exp: real -> real, log: real -> real) returns (i: nat)
    ensures |bins| == 0 ==> Pick(bins, fallback, exp, log) == fallback
    ensures |bins| > 0 ==> var c := Candidates(bins);
      && i < |c| && Pick(bins, fallback, exp, log) == BinHex(c[i].0)
      && (forall j :: 0 <= j < |c| ==> Score(c[j], exp, log) <= Score(c[i], exp, log))
      && (forall j :: 0 <= j < i ==> Score(c[j], exp, log) < Score(c[i], exp, log))
  {
    i := 0;
    if |bins| > 0 {
      var c := Candidates(bins);
      i := BestScored(c, exp, log);
      var sc := ScoreAll(c, exp, log);
      assert Pick(bins, fallback, exp, log) == SortBy(sc, ByScoreDesc)[0].hex;
    }
  }

  /** The accent: the second most frequent lower bin when there are two or more. */
  function Accent(bins: Bins): (hex: string)
    ensures |bins| <= 1 ==> hex == "#999999"
    ensures |bins| > 1 ==> exists i :: 0 <= i < |bins| && hex == BinHex(bins[i].0)
  {
    if |bins| > 1 then
      var s := SortBy(bins, ByCountDesc);
      assert s[1] in multiset(s);
      BinHex(s[1].0)
    else "#999999"
  }

  lemma AccentSecond(bins: Bins)
    ensures |bins| <= 1 ==> Accent(bins) == "#999999"
    ensures |bins| > 1 ==> var s := SortBy(bins, ByCountDesc);
      && s[1] in bins && Accent(bins) == BinHex(s[1].0)
      && s[1].1 <= s[0].1
      && forall j :: 1 <= j < |s| ==> s[j].1 <= s[1].1
  {
    if |bins| > 1 {
      var s := SortBy(bins, ByCountDesc);
      assert s[1] in multiset(s);
      assert ByCountDesc(s[0]) <= ByCountDesc(s[1]);
      forall j | 1 <= j < |s| ensures s[j].1 <= s[1].1 {
        if j > 1 {
          assert ByCountDesc(s[1]) <= ByCountDesc(s[j]);
        }
      }
    }
  }

  // ----- extractTopBottomColors -----

  datatype Outfit = Outfit(top: string, bottom: string, accent: string)

  function ExtractSpec(d: seq<int>, strength: real, exp: real -> real, log: real -> real): Outfit
    requires IsImage(d)
  {
    var border := BorderMean(d);
    var topBins := Hist(d, border, strength, TopRow, MidRow);
    var botBins := Hist(d, border, strength, MidRow, BottomRow);
    Outfit(Pick(topBins, "#d7d7d7", exp, log), Pick(botBins, "#bdbdbd", exp, log), Accent(botBins))
  }

  method ExtractColors(d: seq<int>, strength: real, exp: real -> real, log: real -> real) returns (o: Outfit)
    requires IsImage(d)
    ensures o == ExtractSpec(d, strength, exp, log)
  {
    var border := AvgBorder(d);
    var topBins := BuildHist(d, border, strength, TopRow, MidRow);
    var botBins := BuildHist(d, border, strength, MidRow, BottomRow);
    var top := Pick(topBins, "#d7d7d7", exp, log);
    var bottom := Pick(botBins, "#bdbdbd", exp, log);
    var accent := "#999999";
    if |botBins| > 1 {
      var k := SortBy(botBins, ByCountDesc)[1].0;
      accent := BinHex(k);
    }
    o := Outfit(top, bottom, accent);
  }

  predicate IsHexColor(s: string)
  {
    |s| == 7 && s[0] == '#' && forall i :: 1 <= i < 7 ==> IsLowerHex(s[i])
  }

  lemma PickIsHex(bins: Bins, fallback: string, exp: real -> real, log: real -> real)
    requires IsHexColor(fallback)
    ensures IsHexColor(Pick(bins, fallback, exp, log))
  {
    var i := PickChoice(bins, fallback, exp, log);
  }

  /** All three colours are "#" and six lower-case hex digits. */
  lemma ExtractIsHex(d: seq<int>, strength: real, exp: real -> real, log: real -> real)
    requires IsImage(d)
    ensures var o := ExtractSpec(d, strength, exp, log);
            IsHexColor(o.top) && IsHexColor(o.bottom) && IsHexColor(o.accent)
  {
    var border := BorderMean(d);
    assert IsHexColor("#d7d7d7") && IsHexColor("#bdbdbd") && IsHexColor("#999999");
    PickIsHex(Hist(d, border, strength, TopRow, MidRow), "#d7d7d7", exp, log);
    PickIsHex(Hist(d, border, strength, MidRow, BottomRow), "#bdbdbd", exp, log);
  }
}
