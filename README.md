# Coordination book and vector font: a Dafny model

This project models the deterministic core of two small browser programs.

**The coordination book** is an outfit journal. It keeps one record per calendar day in
a dictionary keyed "YYYY-MM-DD". Its parts:

- a Monday-first month grid;
- the record edits: moods, manual colours, swatch preview and generation, photo upload
  with a 10 MiB limit;
- a colour pipeline over decoded RGBA pixel buffers:
  - a k-means palette quantiser;
  - a Sobel edge counter and variance ladder that guesses the fabric;
  - a dispatcher that picks one of seven swatch renderers;
- in the outfit extractor, a 4-bit-per-channel histogram that picks top, bottom and
  accent colours.

Two revisions are modelled: the React one (`coordination-book/app.jsx`,
`coordination-book/app.js`) and the earlier one (`coordination-book/sketch.js`).

**The vector font** turns 5x7 master bitmaps into outlines. It emits the boundary edges of
the filled cells, builds an adjacency map of their end points, and traces contours under a
used-edge set. It then lays out text with a fixed advance and line height. A key handler
keeps the settings within their clamps.

Modules, one file each:

- `Common`: options, `Math.round`, decimal rendering.
- `Calendar`: pad, ymd, weekday, month grid, month navigation.
- `Color`: hex encoding and decoding, saturation, luminance, shade, lighten.
- `Sorting`: the stable `Array.prototype.sort`.
- `Palette`: the quantiser.
- `Material`: the material guess.
- `Swatch`: the swatch renderers and their dispatch.
- `Raster`: RGBA buffers.
- `Entry`: record edits.
- `Store`: book edits and import.
- `Outfit`: the top/bottom/accent extractor.
- `Glyphs`: the master table.
- `Outline`: patternToContours.
- `Layout`: glyph metrics, text layout, key settings.

Modelling choices:

- Pixel buffers are `seq<int>` of RGBA bytes. Floating-point values are exact reals.
- `Math.hypot(...) < t` is compared as a squared distance below `t * t`.
- `Math.round(x)` is `floor(x + 0.5)`.
- `Math.atan2`, `Math.exp` and `Math.log` are function parameters.
- A JavaScript `Map` that the code iterates in insertion order is an association list.
- `Array.prototype.sort` with a numeric comparator is stable. It is a stable insertion sort
  on a real key; a descending comparator negates the key.
- Loops that update variables are methods, each proved equal to a specification function.
  Everything else is a function and lemmas.
- The font's settings object is a class whose key handler changes its fields.

## Model

| member | source | states |
|---|---|---|
| Calendar.Pad | coordination-book/app.jsx:2 | at least two characters, exactly two below 100; a single digit gets a leading zero; a number of two or more digits is its decimal text (the same helper in coordination-book/sketch.js:5) |
| Calendar.PadRoundTrip | coordination-book/sketch.js:5 | reading the padded text back as decimal digits gives the number |
| Calendar.DaysInMonth | coordination-book/app.jsx:48 | `new Date(year, month, 0).getDate()` is between 28 and 31 |
| Calendar.MonthStep | coordination-book/app.jsx:48 | the days before month m+1 are those before m plus the length of m |
| Calendar.YearLength | coordination-book/app.jsx:48 | consecutive year starts are 366 days apart in a Gregorian leap year, else 365 |
| Calendar.Weekday | coordination-book/app.jsx:47 | `getDay()` lies in 0..6 |
| Calendar.WeekdayAnchors | coordination-book/app.jsx:47 | 1 January 1970 is a Thursday and 1 January of year 1 a Monday, as getDay counts them |
| Calendar.Lead | coordination-book/app.jsx:47 | the Monday-first offset `(getDay()+6)%7` lies in 0..6 |
| Calendar.MonthGrid | coordination-book/app.jsx:45-54 | length a multiple of 7; the leading offset of nulls; then days 1..daysInMonth in order; then fewer than 7 trailing nulls; the days carry the year as `new Date` reads it, 0..99 as 1900..1999 (Calendar.JsYear) (the same function in coordination-book/sketch.js:10-20) |
| Calendar.PadToWeek | coordination-book/app.jsx:52 | the padding loop keeps the cells it starts with and adds fewer than 7 nulls, to a multiple of 7 |
| Calendar.NextMonth | coordination-book/app.jsx:462 | the Next button always gives a month in 1..12 |
| Calendar.PrevMonth | coordination-book/app.jsx:456 | the Prev button always gives a month in 1..12 |
| Calendar.NavigationInverse | coordination-book/sketch.js:141-162 | Prev undoes Next and Next undoes Prev |
| Calendar.NextMonthStart | coordination-book/app.jsx:462 | the next month starts the day after the current month ends |
| Calendar.GridsContinue | coordination-book/app.jsx:45-54 | the next month's leading offset continues this month's weekdays (outside the 99/100 and -1/0 year jumps of `new Date`, which Calendar.JsYear makes) |
| Calendar.Ymd | coordination-book/app.jsx:3 | for a month and day below 100, the year's decimal text, then `-MM-DD`: the dashes sit 6 and 3 characters from the end |
| Calendar.YmdRoundTrip | coordination-book/app.jsx:3 | for four-digit years, ymd is `YYYY-MM-DD`; the three fields read back as year, month and day |
| Calendar.YmdInjective | coordination-book/sketch.js:6-7 | different dates with four-digit years get different day keys |
| Color.HexOf | coordination-book/app.jsx:107 | `#` then six lower-case hex digits, whatever the channels |
| Color.Channel | coordination-book/app.jsx:107 | a rounded and clamped channel lies in 0..255 |
| Color.RgbToHex | coordination-book/app.js:2 | `#` then six lower-case hex digits |
| Color.HexToRgb | coordination-book/app.js:3 | every decoded channel lies in 0..255, whatever the text |
| Color.ParseHex | coordination-book/app.js:3 | `parseInt(s, 16)` gives a number iff a hexadecimal digit follows the trimmed white space, the optional sign and the optional `0x` |
| Color.HexToRgbNegative | coordination-book/app.js:3 | `#-0000ff` decodes to (255, 255, 1): the sign is read and the bytes are those of -255 |
| Color.HexToRgbPrefix | coordination-book/app.js:3 | `#0x1f` decodes to (0, 0, 31): the `0x` prefix is dropped |
| Color.HexToRgbSpace | coordination-book/app.js:3 | `# ff` decodes to (0, 0, 255) and `#zz`, a NaN, to (0, 0, 0) |
| Color.PlainDigits | coordination-book/app.js:3 | text starting with two hexadecimal digits is read as its leading digits, with nothing skipped |
| Color.RgbToHexRoundTrip | coordination-book/app.js:2-3 | decoding an encoded colour gives back each channel rounded and clamped |
| Color.HexRoundTripBytes | coordination-book/app.js:2-3 | for integer channels in 0..255, hexToRgb(rgbToHex(r, g, b)) is (r, g, b) |
| Color.DecodeBytes | coordination-book/app.js:3 | `#` and three two-digit hex bytes decode to those bytes |
| Color.SatOf | coordination-book/app.js:4 | 0 when the maximum channel is 0; in [0, 1] for non-negative channels |
| Color.ShadeByte | coordination-book/app.js:6 | a shaded channel stays in 0..255 and does not grow for amt in [0, 1] |
| Color.LightenByte | coordination-book/app.js:7 | a lightened channel stays in 0..255 and does not shrink for amt in [0, 1] |
| Color.Shade | coordination-book/app.js:6 | `#` and six digits that decode to the shaded channels of the decoded colour |
| Color.Lighten | coordination-book/app.js:7 | `#` and six digits that decode to the lightened channels of the decoded colour |
| Color.ShadeDarkens | coordination-book/app.js:6 | for amt in [0, 1], shade never raises a channel of the decoded colour |
| Color.LightenBrightens | coordination-book/app.js:7 | for amt in [0, 1], lighten never lowers a channel of the decoded colour |
| Common.JsRound | coordination-book/app.jsx:252 | `Math.round` gives the integer within half a unit, halves going up |
| Common.IntToStringRoundTrip | coordination-book/app.jsx:2 | `String(n)` read back as a decimal gives n, sign included |
| Sorting.SortBy | coordination-book/app.jsx:119 | the sort is a permutation of its input, ordered by the key |
| Sorting.SortByStable | coordination-book/app.jsx:119 | for every key value, the elements with that key keep their input order |
| Sorting.SortByHead | coordination-book/app.js:59 | the first element after sorting is an input element with a least key |
| Sorting.SortByHeadFirst | coordination-book/app.js:59-66 | the head of the stable sort is the first input element with a least key; every element before it has a greater key |
| Palette.Groups | coordination-book/app.jsx:118 | for a buffer of whole pixels, the loop with step 16 visits ceil(\|d\| / 16) positions |
| Palette.SamplesChar | coordination-book/app.jsx:118 | a colour is sampled iff it is the RGB of pixel 4j, for some j, with alpha at least 8 |
| Palette.CollectSamples | coordination-book/app.jsx:118 | the sampling loop gives exactly those samples, in buffer order |
| Palette.InitIndexInBounds | coordination-book/app.jsx:120 | the initial indices floor(len*(i+0.5)/n) are in bounds and non-decreasing in i |
| Palette.Init | coordination-book/app.jsx:120 | n initial centres, each one of the sorted samples |
| Palette.InitCenters | coordination-book/app.jsx:120 | the initialisation loop gives exactly those centres |
| Palette.Nearest | coordination-book/app.jsx:123 | the bucket index is a centre index (that it has the least distance is Palette.NearestIsMin) |
| Palette.NearestIsMin | coordination-book/app.jsx:123 | the chosen centre has the least distance to the sample; a tie goes to the lowest index |
| Palette.NearestCenter | coordination-book/app.jsx:123 | the inner loop finds that centre |
| Palette.Bucket | coordination-book/app.jsx:122-123 | a bucket holds only samples |
| Palette.Step | coordination-book/app.jsx:124 | one round keeps the number of centres; an empty bucket keeps its centre; otherwise the centre becomes the bucket's mean |
| Palette.Avg | coordination-book/app.jsx:109-112 | the empty list gives (0, 0, 0), the sum over `n \|\| 1`; otherwise each channel times the length is the channel sum |
| Palette.Round | coordination-book/app.jsx:122-124 | the bucket and update loops compute that round |
| Palette.RunRounds | coordination-book/app.jsx:121-125 | the outer loop applies the given number of rounds (10 in Quantize) |
| Palette.QuantizeShape | coordination-book/app.jsx:114-127 | exactly n results; with samples, each is `#` plus six hex digits; without samples every result is `#NaNNaNNaN` |
| Palette.Quantize | coordination-book/app.jsx:114-127 | the whole quantiser: sample, sort by brightness, initialise, ten rounds, encode |
| Palette.AvgUniform | coordination-book/app.jsx:109-112 | the mean of copies of one colour is that colour |
| Palette.AvgInRange | coordination-book/app.jsx:109-112 | the mean of colours in [0, 255] is in [0, 255] |
| Palette.UniformSamplesFixed | coordination-book/app.jsx:119-124 | when every sample has one colour, every centre has that colour after any number of rounds |
| Palette.CentersInRange | coordination-book/app.jsx:117-126 | for a byte buffer, every centre stays in [0, 255] in each channel through all rounds |
| Material.ScanCounts | coordination-book/app.jsx:145-152 | partway through the scan, n counts the interior pixels visited and edges is at most n |
| Material.FullScanCount | coordination-book/app.jsx:145-152 | the full scan visits 158 x 158 interior pixels |
| Material.EdgeRatioBounds | coordination-book/app.jsx:154 | the edge ratio lies in [0, 1] |
| Material.VisitPixel | coordination-book/app.jsx:147-151 | one pixel adds one to n and, iff Gx² + Gy² > 60², one edge and its gradient |
| Material.ScanRow | coordination-book/app.jsx:146-152 | the inner loop scans one row |
| Material.EdgeScan | coordination-book/app.jsx:143-153 | the nested Sobel loops compute the edge statistics of the whole image |
| Material.ChannelVariance | coordination-book/app.jsx:129-137 | the two loops compute the mean squared distance from the mean colour |
| Material.VarianceNonneg | coordination-book/app.jsx:134-136 | the variance is never negative |
| Material.SolidVarianceZero | coordination-book/app.jsx:129-137 | a one-colour image has variance 0 |
| Material.ClassifyLadder | coordination-book/app.jsx:156-163 | each outcome holds iff its rung applies and no earlier rung matched: satin, twill, rib, herringbone, leather, plain |
| Material.Classify | coordination-book/app.jsx:156-163 | the ladder yields a known material other than "sequin" |
| Material.ClassifyKnown | coordination-book/app.jsx:156-163 | the guess is always a known material, never "auto" or "sequin" |
| Material.GuessMaterial | coordination-book/app.jsx:139-164 | scan, ratio, angle (a parameter), then the ladder, with the variance only below the edge band |
| Material.SolidGradientZero | coordination-book/app.jsx:147-148 | on a one-colour image both Sobel sums are 0 |
| Material.SolidNoEdges | coordination-book/app.jsx:145-152 | a one-colour image has no edge pixel |
| Material.SolidIsSatin | coordination-book/app.jsx:156 | a one-colour image is guessed as satin |
| Swatch.SwatchLeather | coordination-book/app.jsx:235-248 | displacement 6 + strength/4; base frequency max(0.2, 0.9 - strength/120): at least both, and equal to one of them |
| Swatch.MakeSwatch | coordination-book/app.jsx:269-280 | the swatch has the requested kind when it is one of the seven names, else plain |
| Swatch.MakeSwatchIds | coordination-book/app.jsx:167-280 | the element id each template defines (Swatch.ElementId): none iff "sequin", "hb", "sat", "pebble", "twill", "rib", and "plain" for plain and unknown types; the pattern is rotated by 45 degrees (Swatch.Rotation) iff the type is "twill" |
| Swatch.MakeSwatchDefaults | coordination-book/app.jsx:167-280 | whatever the type, the swatch takes colour i from the given colours where there is one and from its renderer's defaults otherwise (Swatch.SwatchPlain, SwatchTwill, SwatchRib, SwatchHerringbone, SwatchSatin, SwatchLeather, SwatchSequin; Swatch.DefaultColors lists the defaults); with no colours it is drawn in the defaults, with enough it uses the first ones |
| Swatch.MakeSwatchSequin | coordination-book/app.jsx:250-266 | the sequin swatch has 80 + round(1.2 strength) circles, none when that is negative (Swatch.SequinCount); circle i takes colour 2 (default #ffffff) iff i % 3 == 0 and colour 1 (default #f8f4dc) otherwise (Swatch.SequinCircles), on colour 0 (default #2a2a2a) |
| Swatch.MakeSwatchDispatch | coordination-book/app.jsx:269-280 | each of the seven names selects its own renderer; any other string falls back to plain |
| Swatch.MakeSwatchUsesThreeColors | coordination-book/app.jsx:167-266 | no renderer looks past the third colour |
| Swatch.MakeSwatchMonotone | coordination-book/app.jsx:167-266 | a higher strength never lowers a pattern scale, the satin shine, the leather displacement or the sequin count, and never raises the leather frequency |
| Entry.RemoveAll | coordination-book/app.jsx:569 | the filter keeps every other mood as often as it occurs and drops every copy of the mood; it shortens the list iff the mood was there |
| Entry.RemoveAllFilters | coordination-book/app.jsx:569 | the filter keeps a single mood iff it differs, and filters a concatenation part by part, so the kept moods stay in order |
| Entry.ToggleMood | coordination-book/app.jsx:567-570 | a present mood is removed with every copy and the others stay, each as often as before; an absent one is appended (the same toggle in coordination-book/sketch.js:276-284) |
| Entry.ToggleOffKeepsOrder | coordination-book/app.jsx:567-570 | switching off a present mood filters each part of the list on its own: the remaining moods keep their order |
| Entry.ToggleMoodNoDup | coordination-book/app.jsx:567-570 | toggling keeps a duplicate-free list duplicate-free |
| Entry.ToggleTwiceAbsent | coordination-book/sketch.js:276-284 | toggling an absent mood twice restores the list |
| Entry.ToggleTwicePresent | coordination-book/sketch.js:276-284 | toggling a present mood twice moves it to the end: the same moods, reordered |
| Entry.ToggleTwiceReorders | coordination-book/sketch.js:276-284 | an example where toggling twice does not restore the order |
| Entry.EmojiOnly | coordination-book/app.jsx:96 | the label's prefix up to its first space, "" for an empty label (the same function in coordination-book/sketch.js:40-42) |
| Entry.AddManualColor | coordination-book/app.jsx:598-611 | a no-op at six colours; otherwise appends "#cccccc", and redraws the swatch unless the type is "auto" |
| Entry.AddKeepsBound | coordination-book/app.jsx:601 | the list never grows past six colours |
| Entry.ChangeManualColor | coordination-book/app.jsx:612-621 | only index idx changes, to val; the swatch is redrawn, with "plain" standing in for "auto" |
| Entry.RemoveAt | coordination-book/app.jsx:625 | `splice(idx, 1)` deletes exactly index idx; an index past the end deletes nothing |
| Entry.RemoveManualColor | coordination-book/app.jsx:622-631 | deletes index idx and redraws from what is left, falling back to the photo palette |
| Entry.RemoveLastFallsBack | coordination-book/app.jsx:627-628 | removing the last manual colour redraws from the photo palette |
| Entry.ClearManualColors | coordination-book/app.jsx:632-639 | empties the list and redraws from the palette, or drops the swatch when there is none |
| Entry.PreviewSwatch | coordination-book/app.jsx:642-648 | a type or strength change redraws only when colours exist and the type is not "auto"; the colours are the manual ones if any, else the photo palette (Entry.EffectiveColors) |
| Entry.GenerateSwatch | coordination-book/app.jsx:651-668 | with a fixed type, draws that type, from the manual colours, the palette or the defaults (Entry.EffectiveColors); with "auto", takes the guessed type when there is a photo and does nothing otherwise |
| Entry.UpToComma | coordination-book/app.jsx:14 | the text before the first comma |
| Entry.PayloadOfDataUrl | coordination-book/app.jsx:14 | the payload of a data URL of one header and one base64 part is that part |
| Entry.DataUrlBytes | coordination-book/app.jsx:13-16 | floor(0.75 * payload length) |
| Entry.TooLargeThreshold | coordination-book/app.jsx:731-732 | an upload is refused iff its payload has at least 13981015 characters, that is, more than 10 MiB decoded |
| Entry.UploadPhoto | coordination-book/app.jsx:722-758 | a refused upload changes nothing; otherwise the photo and its palette are stored |
| Store.UpdateDay | coordination-book/sketch.js:56-64 | a null book is read as {}; only key day changes, to fn of its record or of the empty record |
| Store.UpdateSeedsEntry | coordination-book/app.jsx:90-95 | in the React book an update of a day without a record starts from empty notes, no photo, no moods, no palette, no manual colours, type "auto", strength 60 and no swatch (Entry.EmptyEntry); a day with a record starts from it (Store.Current, coordination-book/app.jsx:293) |
| Store.UpdateSeedsSimpleEntry | coordination-book/sketch.js:37-39 | in the earlier book an update of a day without a record starts from empty notes, no photo and no moods (Entry.EmptySimpleEntry); a day with a record starts from it |
| Store.UpdateDayAsWritten | coordination-book/app.jsx:291-296 | fails exactly on a null book |
| Store.UpdateDayAsWrittenDiffers | coordination-book/app.jsx:291-296 | the two versions agree on every non-null book; on a null one only the corrected version succeeds |
| Store.SaveIdempotent | coordination-book/app.jsx:548 | saving the same record twice leaves the book as saving it once |
| Store.UpdatesCommute | coordination-book/app.jsx:291-296 | updates of two different days commute |
| Store.DeleteDay | coordination-book/app.jsx:551 | only the open day's key is removed; every other record stays |
| Store.DeleteAbsent | coordination-book/sketch.js:256-262 | deleting an absent day leaves the book as it was |
| Store.DeleteUndoesUpdate | coordination-book/app.jsx:551 | deleting a day just added restores the book |
| Store.Import | coordination-book/sketch.js:113-127 | a parse failure keeps the book; otherwise it is replaced by `data \|\| {}` |
| Store.ImportReplaces | coordination-book/sketch.js:117-119 | a successful import does not depend on the previous book |
| Outfit.Windows | coordination-book/app.js:16-17 | the windows are floor(160 * f) for the five fractions; the top and bottom rows are disjoint |
| Outfit.AvgBorder | coordination-book/app.js:19-32 | the border loops compute the mean over 4 * 160 samples |
| Outfit.SolidBorderMean | coordination-book/app.js:19-32 | the border mean of a one-colour image is that colour |
| Outfit.CloserThanMonotone | coordination-book/app.js:46-47 | a distance below a threshold stays below a larger one |
| Outfit.KeptMonotone | coordination-book/app.js:35-47 | a pixel kept at some strength is kept at every lower strength |
| Outfit.BinKey | coordination-book/app.js:48 | the packed key of byte channels lies in 0..4095 |
| Outfit.BinKeyDecode | coordination-book/app.js:48 | unpacking a key gives each channel's high nibble back |
| Outfit.BinKeySame | coordination-book/app.js:48 | two colours share a bin iff their three high nibbles agree |
| Outfit.BinHex | coordination-book/app.js:61-64 | a bin's colour is `#` plus six hex digits |
| Outfit.BinHexDecodes | coordination-book/app.js:61 | a bin's colour decodes to 17 times each nibble |
| Outfit.BumpLookup | coordination-book/app.js:49 | `set(key, (get(key) \|\| 0) + 1)` adds one to that key and no other |
| Outfit.BumpTotal | coordination-book/app.js:49 | each counted pixel adds exactly one to the total |
| Outfit.BumpKeys | coordination-book/app.js:49 | the key set gains exactly the key |
| Outfit.BumpPlaces | coordination-book/app.js:49 | a new key goes last with count 1; an existing key keeps its place (Map insertion order) |
| Outfit.BumpValid | coordination-book/app.js:49 | bins stay duplicate-free with positive counts |
| Outfit.BuildHist | coordination-book/app.js:39-53 | the nested region loops compute the histogram of the window |
| Outfit.HistWithinArea | coordination-book/app.js:39-53 | the histogram is well formed and its total is at most the region's area |
| Outfit.HistMonotone | coordination-book/app.js:35-53 | raising the strength never raises a bin count |
| Outfit.Candidates | coordination-book/app.js:59 | at most six candidates |
| Outfit.CandidatesMostFrequent | coordination-book/app.js:59 | the candidates are the first bins of the stable descending sort; none of the rest has a higher count |
| Outfit.Score | coordination-book/app.js:60-65 | with a positive exp and a log that is non-negative from 1 on, a score is at least 0.5 |
| Outfit.ScoreFavoursFrequent | coordination-book/app.js:60-65 | with a monotone log, a bin of the same colour and a higher count never scores lower |
| Outfit.Pick | coordination-book/app.js:57-67 | empty bins give the fallback; otherwise the colour of one of the candidates |
| Outfit.PickChoice | coordination-book/app.js:57-67 | empty bins give the fallback; otherwise the colour of a candidate with the highest score, and of the first such candidate, since every earlier candidate scores lower |
| Outfit.PickIsHex | coordination-book/app.js:57-67 | pick yields a hex colour when the fallback is one |
| Outfit.Accent | coordination-book/app.js:72-77 | "#999999" for at most one bottom bin; otherwise the colour of one of the bins |
| Outfit.AccentSecond | coordination-book/app.js:72-77 | "#999999" unless there are at least two bottom bins; then the second most frequent bin's colour |
| Outfit.ExtractColors | coordination-book/app.js:10-79 | the extractor: border mean, two histograms, top, bottom and accent |
| Outfit.ExtractIsHex | coordination-book/app.js:69-78 | top, bottom and accent are all hex colours |
| Glyphs.TableKeys | font/sketch.js:22-350 | the table holds exactly the upper-case letters, the digits and the space |
| Glyphs.TableWellFormed | font/sketch.js:22-350 | every entry has 7 rows of 5 cells, each '.' or '#' |
| Glyphs.SpaceIsBlank | font/sketch.js:347-349 | the space glyph has no filled cell |
| Glyphs.GlyphShape | font/sketch.js:452 | any glyph `GLYPHS[ch] \|\| GLYPHS[" "]` gives (Glyphs.GlyphFor) is well formed; a character without a master falls back to the blank space |
| Outline.EmitCell | font/sketch.js:360-366 | a filled cell emits its top, right, bottom and left edge, in that order, when the cell across is empty |
| Outline.EmitEdges | font/sketch.js:358-368 | the cell loops emit the boundary edges in row-major order |
| Outline.BoundaryEdgesChar | font/sketch.js:355-368 | an edge is emitted iff it is the clockwise side of a filled cell whose neighbour across is empty or outside |
| Outline.EdgeGeometry | font/sketch.js:363-366 | every edge is one axis-aligned unit step between lattice points of [0, cols] x [0, rows] |
| Outline.EdgeCount | font/sketch.js:355-368 | no edge repeats; there are as many edges as (filled cell, empty neighbour) pairs |
| Outline.Continues | font/sketch.js:360-366 | from the end of every boundary edge another boundary edge leads on, not back |
| Outline.Precedes | font/sketch.js:360-366 | into the start of every boundary edge another boundary edge leads, not from its end |
| Outline.FilledHasEdge | font/sketch.js:358-366 | a pattern with a filled cell emits at least one edge |
| Outline.BoundaryDegree2 | font/sketch.js:355-380 | in the adjacency map of a pattern no point is its own neighbour, and every listed point has two different neighbours |
| Outline.BlankHasNoEdges | font/sketch.js:358-360 | a pattern with no filled cell emits no edge |
| Outline.BuildAdjacency | font/sketch.js:370-380 | the forEach builds the adjacency map of the edges |
| Outline.AdjOf | font/sketch.js:370-380 | every point in the map has at least one neighbour |
| Outline.AdjOfChar | font/sketch.js:373-380 | b is a neighbour of a iff some edge joins them, in either direction |
| Outline.AdjSymmetric | font/sketch.js:377-380 | the adjacency map is symmetric |
| Outline.FirstFree | font/sketch.js:408-418 | the chosen neighbour is not prev and its edge is unused, and every neighbour before it in angle order is prev or used: it is the first such; none is chosen iff every neighbour is prev or used |
| Outline.ChooseNeighbour | font/sketch.js:408-418 | the inner loop finds that neighbour |
| Outline.WalkStep | font/sketch.js:413-423 | taking an unused edge keeps the walk invariant and leaves strictly fewer unused pairs, so the walk ends |
| Outline.Walk | font/sketch.js:392-425 | a walk from the seed along neighbours; both directions of each step are marked used; no segment is walked twice; it stops back at the seed after at least one step, or where no unused neighbour other than prev is left; a fresh walk in a map of degree two keeps at least 3 points |
| Outline.TraceContours | font/sketch.js:382-428 | each kept contour has at least 3 points, starts at an edge's start, steps along edges, and no segment is walked twice across contours; with an edge and a map of degree two there is a contour |
| Outline.ContourGeometry | font/sketch.js:382-428 | every contour point lies in the grid box and every step is a unit step |
| Outline.PatternToContours | font/sketch.js:353-431 | unit-step lattice polylines in the box, no shared segment, no contour for a blank pattern and at least one for a pattern with a filled cell |
| Layout.UpperMaster | font/sketch.js:477 | upper-casing (Layout.Upper: a-z to A-Z, two further characters to I and S, the rest kept) gives a master glyph iff the character is a letter, a digit, the space or one of those two; only a newline gives a newline |
| Layout.GlyphMetrics | font/sketch.js:455-458 | a 5 x 7 master glyph advances size and is 4/3 size high |
| Layout.BuildGlyph | font/sketch.js:451-468 | advance = size, height = 4/3 size; a non-master character has no contour; every point is in the 5 x 7 box |
| Layout.LayoutSpec | font/sketch.js:470-487 | no placed glyph is a newline |
| Layout.LayoutText | font/sketch.js:470-487 | the loop places each glyph at the pen; x and y follow the column and line counts |
| Layout.PenNewline | font/sketch.js:478 | a newline places nothing; x goes back to 0 and y steps by 1.4 size |
| Layout.PenGlyph | font/sketch.js:479-484 | any other character is placed at the pen; x then steps by advance plus 0.16 size |
| Layout.LayoutCount | font/sketch.js:476-485 | one glyph per character that is not a newline |
| Layout.SingleLine | font/sketch.js:476-485 | text without a newline puts glyph k at x = k * 1.16 size, y = 0, with the upper-cased character |
| Layout.NewlineRestarts | font/sketch.js:478 | after a newline, the next glyph starts a new line at column 0 |
| Layout.KeyStep | font/sketch.js:508-518 | a press keeps the clamps; "1" and "2" select that style set and other keys keep it; "[" lowers the size by 8 to no less than 30 and "]" raises it by 8; the up and down arrows step the noise by 1, not below 0; the left and right arrows step the grid by 1, not below 2; only the space toggles the seed lock |
| Layout.Run | font/sketch.js:508-518 | presses without a space keep the seed lock; presses without "[" or "]" keep the size |
| Layout.RunInRange | font/sketch.js:508-518 | any sequence of presses from settings within the clamps stays within them |
| Layout.ReachableInRange | font/sketch.js:12-16 | from the initial settings, size ≥ 30, noise ≥ 0, grid ≥ 2 and style set 1 or 2 after any presses |
| Layout.Settings.constructor | font/sketch.js:12-16 | the initial settings: style 1, size 160, noise 12, grid 4, seed unlocked |
| Layout.Settings.KeyPressed | font/sketch.js:508-518 | the handler changes the fields as one key step and keeps them within the clamps |

## Left out

- Rendering is not modelled: DOM, React, JSX panels, event wiring, the print and avatar HTML builders, and the SVG text of the swatches. A swatch is a value holding its numeric parameters and colours. Only the fixed pattern ids are modelled.
- I/O is not modelled: localStorage and the `useLS` retry, FileReader, Image, canvas decoding and down-scaling, the data.json fetch, and the backup download. The colour pipeline starts from an already decoded RGBA buffer. The clock (`new Date()` for today) is left out.
- Swatch.SwatchSequin: the `Math.random` coordinates, radii and opacities of the circles are left out; only the count and the colours are modelled.
- Material.GuessMaterial: `Math.atan2` is a parameter `degOf` (the folded angle in degrees), because it is transcendental.
- Outfit.Pick: `Math.exp` and `Math.log` in the score are parameters, because they are transcendental.
- Outfit.ScoreFavoursFrequent: it holds for any positive `exp` and monotone `log`, which the real functions are; their other properties are not used.
- Outline.Walk: `Math.atan2` in the neighbour sort is a parameter, because it is transcendental.
- Floating point: every value is an exact real, so rounding error in `(1-amt)`, the means and the scales is not modelled. `Math.hypot` is replaced by an exact comparison of squared distances.
- contourToPoints, normalAt, the resample centring and the drawing routines are left out, because they are floating-point geometry and drawing. Layout.LayoutText places a glyph where the source offsets that glyph's points.
- Layout.Upper: `toUpperCase` is modelled for the ASCII letters and for the two characters that upper-case to a master letter, U+0131 and U+017F. A character that upper-cases to several characters is left out; none of them reaches a master glyph.
- Outline.TraceContours: it does not prove that a walk returns to its seed (a closed contour). It proves that no segment is walked twice, that a walk stops only back at its seed or with no unused neighbour, and that a non-blank pattern gives a contour.
- Entry.ChangeManualColor: it requires idx < the number of manual colours. The colour inputs exist only for present indices. Writing past the end would leave holes in the array, which is not modelled.
- Entry.GenerateSwatch: the guessed type is a parameter, because it needs the photo decoded. Material.GuessMaterial computes it from a buffer.
- Entry.UploadPhoto: the down-scaled JPEG and its palette are parameters, because they need the canvas. Palette.Quantize computes the palette from a buffer.
- Palette.Quantize: with no sample the code returns n copies of "#NaNNaNNaN" instead of refusing the input. The model does the same and needs no precondition.
- onPhotoSelected in coordination-book/app.jsx is never called from the markup, so it is left out. The file input's handler is modelled as Entry.UploadPhoto.
- Store.Current: a stored record is used whenever the day is a key. The source's `prev[day] || emptyEntry()` would also replace a stored falsy value, such as a `null` record, by the empty record. Records are values of the record type here, so a falsy record cannot be stored.
- Color.HexToRgb: parseInt is read exactly, so a digit string of 2^53 or more, which JavaScript rounds to a double, keeps every digit here. Clamped rgbToHex output, the only text shade and lighten get, has six digits.
- Store.Import: JSON parsing is left out. The parsed value is a failure, a falsy value or a book; a value that is neither object nor falsy is not modelled.
- The other programs of the repository (pattern, brush, hellokitty, tanned-kitty, the fashion mixer) are not part of this model. They are drawing code with no deterministic core.

## Findings

| source | as written | input that shows it | evidently intended | confidence | as-written member | corrected member |
|---|---|---|---|---|---|---|
| coordination-book/app.jsx:291-296 | updateDay copies `prev \|\| {}` but reads `prev[day]`, which throws a TypeError when the book is null | latent: a book of `null` (a stored "null", which `useLS` parses back at coordination-book/app.jsx:62) makes the calendar crash first at `book[key]` (coordination-book/app.jsx:488), so no save reaches updateDay; the first call with a null `prev` would throw | read the day from the copied `prev \|\| {}`, as coordination-book/sketch.js:56-64 does | not executed | Store.UpdateDayAsWritten (shown by Store.UpdateDayAsWrittenDiffers) | Store.UpdateDay |
