/** The palette quantiser of the React book (quantizeColorsFromImg): every fourth
    pixel of a 220x220 RGBA buffer with alpha of at least 8 is sampled, the samples
    are sorted by r+g+b, n centres are taken from evenly spaced ranks, and ten
    rounds of nearest-centre bucketing and averaging follow.  Distances are compared
    squared (Math.hypot is monotone), and the initial best of 1e9 becomes 1e18. */
module Palette {
  import opened Common
  import opened Color
  import opened Sorting

  /** The hexOf of a centre with no colour (a spread of undefined): every channel is NaN. */
  const NaNHex: string := "#NaNNaNNaN"

  /** The number of k-means rounds. */
  const Rounds: nat := 10

  /** The squared initial best distance, (1e9)^2. */
  const FarAway: real := 1000000000000000000.0

  /** The sample of the k-th group of 16 bytes (the pixel starting there), if its alpha is at least 8. */
  function SampleAt(d: seq<int>, k: nat): seq<Rgb>
    requires 16 * k + 3 < |d|
  {
    if d[16 * k + 3] < 8 then [] else [Rgb(d[16 * k] as real, d[16 * k + 1] as real, d[16 * k + 2] as real)]
  }

  /** The samples of the first k groups, in buffer order. */
  function SamplesUpTo(d: seq<int>, k: nat): seq<Rgb>
    requires 16 * k <= |d| + 12
  {
    if k == 0 then [] else SamplesUpTo(d, k - 1) + SampleAt(d, k - 1)
  }

  /** The number of pixels the sampling loop visits: those starting at a multiple of 16 bytes. */
  function Groups(d: seq<int>): (g: nat)
    ensures 16 * g <= |d| + 12 < 16 * g + 16
  {
    (|d| + 12) / 16
  }

  function Samples(d: seq<int>): seq<Rgb>
  {
    SamplesUpTo(d, Groups(d))
  }

  /** A colour is sampled exactly when some visited pixel has it with alpha of at least 8. */
  lemma {:induction false} SamplesUpToChar(d: seq<int>, k: nat, p: Rgb)
    requires 16 * k <= |d| + 12
    ensures p in SamplesUpTo(d, k) <==>
            exists j :: 0 <= j < k && d[16 * j + 3] >= 8 &&
                        p == Rgb(d[16 * j] as real, d[16 * j + 1] as real, d[16 * j + 2] as real)
  {
    if k > 0 {
      SamplesUpToChar(d, k - 1, p);
    }
  }

  lemma SamplesChar(d: seq<int>, p: Rgb)
    ensures p in Samples(d) <==>
            exists j :: 0 <= j && 16 * j + 3 < |d| && d[16 * j + 3] >= 8 &&
                        p == Rgb(d[16 * j] as real, d[16 * j + 1] as real, d[16 * j + 2] as real)
  {
    SamplesUpToChar(d, Groups(d), p);
  }

  /** The sort key of the initialisation: r + g + b. */
  function Brightness(p: Rgb): real
  {
    p.r + p.g + p.b
  }

  lemma MulNonneg(a: nat, b: nat)
    ensures a * b >= 0
  {
  }

  lemma MulMono(x: int, y: int, m: int)
    requires m >= 0 && x <= y
    ensures x * m <= y * m
  {
  }

  lemma MulCancelLess(x: int, y: int, m: int)
    requires m >= 1 && x * m < y * m
    ensures x < y
  {
  }

  /** Math.floor(len * (i + 0.5) / n), in exact arithmetic. */
  function InitIndex(len: nat, n: nat, i: nat): nat
    requires n >= 1
  {
    MulNonneg(len, 2 * i + 1);
    (len * (2 * i + 1)) / (2 * n)
  }

  lemma DivBelow(a: nat, len: nat, m: nat)
    requires m >= 1 && a < len * m
    ensures a / m < len
  {
    assert (a / m) * m <= a;
    MulCancelLess(a / m, len, m);
  }

  lemma DivMonotone(a: nat, b: nat, m: nat)
    requires m >= 1 && a <= b
    ensures a / m <= b / m
  {
    assert (a / m) * m <= a;
    assert b < (b / m + 1) * m;
    MulCancelLess(a / m, b / m + 1, m);
  }

  /** The initial indices lie inside the sorted samples and do not decrease with i. */
  lemma InitIndexInBounds(len: nat, n: nat, i: nat)
    requires n >= 1 && len >= 1 && i < n
    ensures InitIndex(len, n, i) < len
    ensures i + 1 < n ==> InitIndex(len, n, i) <= InitIndex(len, n, i + 1)
  {
    MulNonneg(len, 2 * i + 1);
    MulMono(2 * i + 1, 2 * n - 1, len);
    assert (2 * n - 1) * len == len * (2 * n) - len;
    DivBelow(len * (2 * i + 1), len, 2 * n);
    if i + 1 < n {
      MulMono(2 * i + 1, 2 * i + 3, len);
      MulNonneg(len, 2 * i + 3);
      DivMonotone(len * (2 * i + 1), len * (2 * i + 3), 2 * n);
      assert 2 * (i + 1) + 1 == 2 * i + 3;
    }
  }

  /** The initial centres: copies of the samples at the evenly spaced ranks of the sorted list. */
  function Init(sorted: seq<Rgb>, n: nat): (cs: seq<Rgb>)
    requires n >= 1 && |sorted| >= 1
    ensures |cs| == n
    ensures forall i :: 0 <= i < n ==> cs[i] in sorted
  {
    seq(n, i requires 0 <= i < n => InitAt(sorted, n, i))
  }

  /** Centre i of the initialisation: the sample at rank InitIndex. */
  function InitAt(sorted: seq<Rgb>, n: nat, i: nat): (c: Rgb)
    requires n >= 1 && |sorted| >= 1 && i < n
    ensures c in sorted
  {
    InitIndexInBounds(|sorted|, n, i);
    sorted[InitIndex(|sorted|, n, i)]
  }

  /** The nearest-centre scan from centre k on, with the best index and distance so far. */
  function NearestFrom(p: Rgb, cs: seq<Rgb>, k: nat, bi: nat, best: real): (r: nat)
    requires k <= |cs| && bi < |cs|
    ensures r < |cs|
    decreases |cs| - k
  {
    if k == |cs| then bi
    else if Dist2(p, cs[k]) < best then NearestFrom(p, cs, k + 1, k, Dist2(p, cs[k]))
    else NearestFrom(p, cs, k + 1, bi, best)
  }

  /** The bucket index of a sample. */
  function Nearest(p: Rgb, cs: seq<Rgb>): (r: nat)
    requires |cs| >= 1
    ensures r < |cs|
  {
    NearestFrom(p, cs, 0, 0, FarAway)
  }

  lemma {:induction false} NearestFromIsMin(p: Rgb, cs: seq<Rgb>, k: nat, bi: nat, best: real)
    requires k <= |cs| && bi < |cs|
    requires forall q :: 0 <= q < |cs| ==> Dist2(p, cs[q]) < FarAway
    requires best == FarAway || best == Dist2(p, cs[bi])
    requires best == FarAway ==> k == 0
    requires best != FarAway ==> bi < k
    requires forall q :: 0 <= q < k ==> Dist2(p, cs[q]) >= best
    requires forall q :: 0 <= q < bi ==> Dist2(p, cs[q]) > best
    ensures var r := NearestFrom(p, cs, k, bi, best);
            (forall q :: 0 <= q < |cs| ==> Dist2(p, cs[r]) <= Dist2(p, cs[q])) &&
            (forall q :: 0 <= q < r ==> Dist2(p, cs[q]) > Dist2(p, cs[r]))
    decreases |cs| - k
  {
    if k == |cs| {
      assert k > 0;
    } else if Dist2(p, cs[k]) < best {
      NearestFromIsMin(p, cs, k + 1, k, Dist2(p, cs[k]));
    } else {
      NearestFromIsMin(p, cs, k + 1, bi, best);
    }
  }

  /** With every centre closer than the initial best, the bucket is the nearest centre, and a tie
      goes to the lowest index. */
  lemma NearestIsMin(p: Rgb, cs: seq<Rgb>)
    requires |cs| >= 1
    requires forall q :: 0 <= q < |cs| ==> Dist2(p, cs[q]) < FarAway
    ensures forall q :: 0 <= q < |cs| ==> Dist2(p, cs[Nearest(p, cs)]) <= Dist2(p, cs[q])
    ensures forall q :: 0 <= q < Nearest(p, cs) ==> Dist2(p, cs[q]) > Dist2(p, cs[Nearest(p, cs)])
  {
    NearestFromIsMin(p, cs, 0, 0, FarAway);
  }

  /** The samples that go to bucket k, in sample order. */
  function Bucket(pts: seq<Rgb>, cs: seq<Rgb>, k: nat): (b: seq<Rgb>)
    requires |cs| >= 1
    ensures forall q :: 0 <= q < |b| ==> b[q] in pts
  {
    if pts == [] then []
    else
      var last := pts[|pts| - 1];
      var rest := Bucket(pts[..|pts| - 1], cs, k);
      assert forall q :: 0 <= q < |rest| ==> rest[q] in pts by {
        forall q | 0 <= q < |rest| ensures rest[q] in pts {
          assert rest[q] in pts[..|pts| - 1];
        }
      }
      rest + (if Nearest(last, cs) == k then [last] else [])
  }

  function Sum(list: seq<Rgb>): Rgb
  {
    if list == [] then Rgb(0.0, 0.0, 0.0)
    else
      var s := Sum(list[..|list| - 1]);
      var c := list[|list| - 1];
      Rgb(s.r + c.r, s.g + c.g, s.b + c.b)
  }

  /** avg(list): the channel-wise mean (the sum itself for an empty list). */
  function Avg(list: seq<Rgb>): (a: Rgb)
    ensures |list| == 0 ==> a == Rgb(0.0, 0.0, 0.0)
    ensures var s, n := Sum(list), |list| as real;
      |list| > 0 ==> a.r * n == s.r && a.g * n == s.g && a.b * n == s.b
  {
    var s := Sum(list);
    var n := if |list| == 0 then 1 else |list|;
    Rgb(s.r / n as real, s.g / n as real, s.b / n as real)
  }

  /** One round: each centre with a non-empty bucket moves to its bucket's mean; the others stay. */
  function Step(pts: seq<Rgb>, cs: seq<Rgb>): (next: seq<Rgb>)
    requires |cs| >= 1
    ensures |next| == |cs|
    ensures forall k :: 0 <= k < |cs| && |Bucket(pts, cs, k)| == 0 ==> next[k] == cs[k]
    ensures forall k :: 0 <= k < |cs| && |Bucket(pts, cs, k)| > 0 ==> next[k] == Avg(Bucket(pts, cs, k))
  {
    seq(|cs|, k requires 0 <= k < |cs| =>
      if |Bucket(pts, cs, k)| > 0 then Avg(Bucket(pts, cs, k)) else cs[k])
  }

  /** The centres after t rounds. */
  function Iterate(pts: seq<Rgb>, cs: seq<Rgb>, t: nat): (r: seq<Rgb>)
    requires |cs| >= 1
    ensures |r| == |cs|
  {
    if t == 0 then cs else Step(pts, Iterate(pts, cs, t - 1))
  }

  /** What quantizeColorsFromImg(img, n) returns for the buffer d. */
  function QuantizeSpec(d: seq<int>, n: nat): (r: seq<string>)
    requires n >= 1
  {
    var pts := Samples(d);
    if |pts| == 0 then seq(n, _ => NaNHex)
    else
      var cs := Iterate(pts, Init(SortBy(pts, Brightness), n), Rounds);
      seq(n, k requires 0 <= k < n => HexOf(cs[k]))
  }

  /** Exactly n colours come back, each "#" and six lower-case hex digits when there are samples. */
  lemma QuantizeShape(d: seq<int>, n: nat)
    requires n >= 1
    ensures |QuantizeSpec(d, n)| == n
    ensures |Samples(d)| > 0 ==> forall k :: 0 <= k < n ==>
              |QuantizeSpec(d, n)[k]| == 7 && QuantizeSpec(d, n)[k][0] == '#' &&
              forall i :: 1 <= i < 7 ==> IsLowerHex(QuantizeSpec(d, n)[k][i])
    ensures |Samples(d)| == 0 ==> forall k :: 0 <= k < n ==> QuantizeSpec(d, n)[k] == NaNHex
  {
  }

  /** The nearest-centre scan of the inner loop. */
  method NearestCenter(p: Rgb, cs: seq<Rgb>) returns (bi: nat)
    requires |cs| >= 1
    ensures bi == Nearest(p, cs)
  {
    bi := 0;
    var best := FarAway;
    var k := 0;
    while k < |cs|
      invariant 0 <= k <= |cs| && bi < |cs|
      invariant NearestFrom(p, cs, k, bi, best) == Nearest(p, cs)
    {
      var dd := Dist2(p, cs[k]);
      if dd < best {
        best := dd;
        bi := k;
      }
      k := k + 1;
    }
  }

  /** The sampling loop: a pixel every 16 bytes, kept when its alpha is at least 8. */
  method CollectSamples(d: seq<int>) returns (pts: seq<Rgb>)
    requires |d| % 4 == 0
    ensures pts == Samples(d)
  {
    pts := [];
    var i := 0;
    ghost var k := 0;
    while i < |d|
      invariant i == 16 * k && 16 * k <= |d| + 12
      invariant pts == SamplesUpTo(d, k)
    {
      AlignedPixel(|d|, k);
      if d[i + 3] >= 8 {
        pts := pts + [Rgb(d[i] as real, d[i + 1] as real, d[i + 2] as real)];
      }
      i := i + 16;
      k := k + 1;
    }
    assert k == Groups(d);
  }

  /** A pixel start below the end of a whole-pixel buffer leaves room for its alpha byte. */
  lemma AlignedPixel(len: nat, k: nat)
    requires len % 4 == 0 && 16 * k < len
    ensures 16 * k + 3 < len && 16 * (k + 1) <= len + 12
  {
  }

  /** One round of bucketing and averaging. */
  method Round(pts: seq<Rgb>, cs: seq<Rgb>) returns (next: seq<Rgb>)
    requires |cs| >= 1
    ensures next == Step(pts, cs)
  {
    var n := |cs|;
    var buckets: seq<seq<Rgb>> := seq(n, _ => []);
    var j := 0;
    while j < |pts|
      invariant 0 <= j <= |pts| && |buckets| == n
      invariant forall k :: 0 <= k < n ==> buckets[k] == Bucket(pts[..j], cs, k)
    {
      var bi := NearestCenter(pts[j], cs);
      assert pts[..j + 1][..j] == pts[..j] && pts[..j + 1][j] == pts[j];
      buckets := buckets[bi := buckets[bi] + [pts[j]]];
      j := j + 1;
    }
    assert pts[..|pts|] == pts;
    next := cs;
    var k := 0;
    while k < n
      invariant 0 <= k <= n && |next| == n
      invariant forall q :: 0 <= q < k ==> next[q] == Step(pts, cs)[q]
      invariant forall q :: k <= q < n ==> next[q] == cs[q]
    {
      if |buckets[k]| > 0 {
        next := next[k := Avg(buckets[k])];
      }
      k := k + 1;
    }
  }

  /** The initialisation loop: centre i is the sample at rank InitIndex of the sorted list. */
  method InitCenters(sorted: seq<Rgb>, n: nat) returns (centers: seq<Rgb>)
    requires n >= 1 && |sorted| >= 1
    ensures centers == Init(sorted, n)
  {
    centers := [];
    var i := 0;
    while i < n
      invariant 0 <= i <= n && |centers| == i
      invariant forall q :: 0 <= q < i ==> centers[q] == InitAt(sorted, n, q)
    {
      InitIndexInBounds(|sorted|, n, i);
      centers := centers + [sorted[InitIndex(|sorted|, n, i)]];
      i := i + 1;
    }
  }

  /** The refinement loop, for a number of rounds. */
  method RunRounds(pts: seq<Rgb>, cs: seq<Rgb>, rounds: nat) returns (centers: seq<Rgb>)
    requires |cs| >= 1
    ensures centers == Iterate(pts, cs, rounds)
  {
    centers := cs;
    var it := 0;
    while it < rounds
      invariant 0 <= it <= rounds
      invariant centers == Iterate(pts, cs, it)
    {
      centers := Round(pts, centers);
      it := it + 1;
    }
  }

  /** quantizeColorsFromImg(img, n) on the decoded buffer d. */
  method Quantize(d: seq<int>, n: nat) returns (r: seq<string>)
    requires |d| % 4 == 0 && n >= 1
    ensures r == QuantizeSpec(d, n)
  {
    var pts := CollectSamples(d);
    var sorted := SortBy(pts, Brightness);
    if |pts| == 0 {
      // every centre is a copy of a missing sample, and no round moves it
      return seq(n, _ => NaNHex);
    }
    var init := InitCenters(sorted, n);
    var centers := RunRounds(pts, init, Rounds);
    r := seq(n, k requires 0 <= k < n => HexOf(centers[k]));
  }

  // ----- Properties of the rounds -----

  /** The sum of a list of equal colours. */
  lemma {:induction false} SumUniform(list: seq<Rgb>, c: Rgb)
    requires forall q :: 0 <= q < |list| ==> list[q] == c
    ensures Sum(list) == Rgb(|list| as real * c.r, |list| as real * c.g, |list| as real * c.b)
  {
    if list != [] {
      SumUniform(list[..|list| - 1], c);
    }
  }

  lemma AvgUniform(list: seq<Rgb>, c: Rgb)
    requires |list| > 0
    requires forall q :: 0 <= q < |list| ==> list[q] == c
    ensures Avg(list) == c
  {
    SumUniform(list, c);
    var n := |list| as real;
    assert (n * c.r) / n == c.r && (n * c.g) / n == c.g && (n * c.b) / n == c.b;
  }

  /** A round leaves centres of the one colour every sample has where they are. */
  lemma StepUniform(pts: seq<Rgb>, cs: seq<Rgb>, c: Rgb)
    requires |cs| >= 1
    requires forall q :: 0 <= q < |pts| ==> pts[q] == c
    requires forall k :: 0 <= k < |cs| ==> cs[k] == c
    ensures forall k :: 0 <= k < |cs| ==> Step(pts, cs)[k] == c
  {
    forall k | 0 <= k < |cs| ensures Step(pts, cs)[k] == c {
      var b := Bucket(pts, cs, k);
      if |b| > 0 {
        forall q | 0 <= q < |b| ensures b[q] == c {
          assert b[q] in pts;
        }
        AvgUniform(b, c);
      }
    }
  }

  lemma {:induction false} IterateUniform(pts: seq<Rgb>, cs: seq<Rgb>, c: Rgb, t: nat)
    requires |cs| >= 1
    requires forall q :: 0 <= q < |pts| ==> pts[q] == c
    requires forall k :: 0 <= k < |cs| ==> cs[k] == c
    ensures forall k :: 0 <= k < |cs| ==> Iterate(pts, cs, t)[k] == c
  {
    if t > 0 {
      IterateUniform(pts, cs, c, t - 1);
      StepUniform(pts, Iterate(pts, cs, t - 1), c);
    }
  }

  /** If every sample has the same colour, every centre starts and stays at that colour. */
  lemma UniformSamplesFixed(pts: seq<Rgb>, n: nat, c: Rgb, t: nat)
    requires n >= 1 && |pts| >= 1
    requires forall q :: 0 <= q < |pts| ==> pts[q] == c
    ensures forall k :: 0 <= k < n ==> Iterate(pts, Init(SortBy(pts, Brightness), n), t)[k] == c
  {
    var sorted := SortBy(pts, Brightness);
    var cs := Init(sorted, n);
    forall k | 0 <= k < n ensures cs[k] == c {
      assert cs[k] in multiset(sorted);
      assert cs[k] in multiset(pts);
    }
    IterateUniform(pts, cs, c, t);
  }

  predicate InRange(c: Rgb)
  {
    0.0 <= c.r <= 255.0 && 0.0 <= c.g <= 255.0 && 0.0 <= c.b <= 255.0
  }

  lemma {:induction false} SumBounds(list: seq<Rgb>)
    requires forall q :: 0 <= q < |list| ==> InRange(list[q])
    ensures var s := Sum(list); var n := |list| as real;
            0.0 <= s.r <= 255.0 * n && 0.0 <= s.g <= 255.0 * n && 0.0 <= s.b <= 255.0 * n
  {
    if list != [] {
      SumBounds(list[..|list| - 1]);
    }
  }

  lemma AvgInRange(list: seq<Rgb>)
    requires |list| > 0
    requires forall q :: 0 <= q < |list| ==> InRange(list[q])
    ensures InRange(Avg(list))
  {
    SumBounds(list);
    var s := Sum(list);
    var n := |list| as real;
    MeanBelow(s.r, n);
    MeanBelow(s.g, n);
    MeanBelow(s.b, n);
  }

  lemma MeanBelow(x: real, n: real)
    requires n >= 1.0 && 0.0 <= x <= 255.0 * n
    ensures 0.0 <= x / n <= 255.0
  {
    assert (x / n) * n == x;
  }

  lemma StepInRange(pts: seq<Rgb>, cs: seq<Rgb>)
    requires |cs| >= 1
    requires forall q :: 0 <= q < |pts| ==> InRange(pts[q])
    requires forall k :: 0 <= k < |cs| ==> InRange(cs[k])
    ensures forall k :: 0 <= k < |cs| ==> InRange(Step(pts, cs)[k])
  {
    forall k | 0 <= k < |cs| ensures InRange(Step(pts, cs)[k]) {
      var b := Bucket(pts, cs, k);
      if |b| > 0 {
        forall q | 0 <= q < |b| ensures InRange(b[q]) {
          assert b[q] in pts;
        }
        AvgInRange(b);
      }
    }
  }

  lemma {:induction false} IterateInRange(pts: seq<Rgb>, cs: seq<Rgb>, t: nat)
    requires |cs| >= 1
    requires forall q :: 0 <= q < |pts| ==> InRange(pts[q])
    requires forall k :: 0 <= k < |cs| ==> InRange(cs[k])
    ensures forall k :: 0 <= k < |cs| ==> InRange(Iterate(pts, cs, t)[k])
  {
    if t > 0 {
      IterateInRange(pts, cs, t - 1);
      StepInRange(pts, Iterate(pts, cs, t - 1));
    }
  }

  /** On a byte buffer every sample lies in the colour cube. */
  lemma {:induction false} SamplesInRange(d: seq<int>, k: nat)
    requires 16 * k <= |d| + 12 && IsBytes(d)
    ensures forall q :: 0 <= q < |SamplesUpTo(d, k)| ==> InRange(SamplesUpTo(d, k)[q])
  {
    if k > 0 {
      SamplesInRange(d, k - 1);
      var j := k - 1;
      assert 0 <= d[16 * j] <= 255 && 0 <= d[16 * j + 1] <= 255 && 0 <= d[16 * j + 2] <= 255;
    }
  }

  /** On a byte buffer with samples, every centre stays in the colour cube through all rounds,
      so hexOf never needs its clamp and sees no NaN. */
  lemma CentersInRange(d: seq<int>, n: nat, t: nat)
    requires n >= 1 && IsBytes(d) && |Samples(d)| >= 1
    ensures var pts := Samples(d);
            forall k :: 0 <= k < n ==> InRange(Iterate(pts, Init(SortBy(pts, Brightness), n), t)[k])
  {
    var pts := Samples(d);
    SamplesInRange(d, Groups(d));
    var sorted := SortBy(pts, Brightness);
    var cs := Init(sorted, n);
    forall k | 0 <= k < n ensures InRange(cs[k]) {
      assert cs[k] in multiset(sorted);
      assert cs[k] in pts;
    }
    IterateInRange(pts, cs, t);
  }
}
