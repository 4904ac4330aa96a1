/** Colour helpers shared by the palette extractor (hexOf in app.jsx) and the
    outfit colour extractor (rgbToHex, hexToRgb, satOf, lumOf, shade, lighten in app.js). */
module Color {
  import opened Common

  /** A colour with real channels: JavaScript numbers before rounding. */
  datatype Rgb = Rgb(r: real, g: real, b: real)

  predicate IsLowerHex(c: char) { '0' <= c <= '9' || 'a' <= c <= 'f' }

  /** The lower-case hexadecimal digit for 0 <= d < 16, as Number.prototype.toString(16) writes it. */
  function HexChar(d: int): (c: char)
    requires 0 <= d < 16
    ensures IsLowerHex(c)
  {
    if d < 10 then ('0' as int + d) as char else ('a' as int + d - 10) as char
  }

  /** v.toString(16).padStart(2, "0") for 0 <= v <= 255: the high digit is '0' below 16. */
  function ByteHex(v: int): (s: string)
    requires 0 <= v <= 255
    ensures |s| == 2 && IsLowerHex(s[0]) && IsLowerHex(s[1])
  {
    [HexChar(v / 16), HexChar(v % 16)]
  }

  /** Math.max(0, Math.min(255, Math.round(x))) */
  function Channel(x: real): (v: int)
    ensures 0 <= v <= 255
  {
    ClampInt(JsRound(x), 0, 255)
  }

  /** rgbToHex(r, g, b): "#" followed by the three rounded, clamped channels in hex. */
  function RgbToHex(r: real, g: real, b: real): (s: string)
    ensures |s| == 7 && s[0] == '#'
    ensures forall i :: 1 <= i < 7 ==> IsLowerHex(s[i])
  {
    "#" + ByteHex(Channel(r)) + ByteHex(Channel(g)) + ByteHex(Channel(b))
  }

  /** hexOf({r, g, b}) of the palette quantiser: the same encoding on a colour record. */
  function HexOf(c: Rgb): (s: string)
    ensures |s| == 7 && s[0] == '#'
    ensures forall i :: 1 <= i < 7 ==> IsLowerHex(s[i])
  {
    RgbToHex(c.r, c.g, c.b)
  }

  /** Value of one hexadecimal digit for parseInt(_, 16) (either case), or -1. */
  function HexDigitValue(c: char): (v: int)
    ensures -1 <= v < 16
  {
    if '0' <= c <= '9' then c as int - '0' as int
    else if 'a' <= c <= 'f' then c as int - 'a' as int + 10
    else if 'A' <= c <= 'F' then c as int - 'A' as int + 10
    else -1
  }

  /** Reads hexadecimal digits from the front of s until the first other character,
      accumulating their value onto acc. */
  function HexPrefixValue(s: string, acc: nat): nat
  {
    if s == [] || HexDigitValue(s[0]) < 0 then acc
    else HexPrefixValue(s[1..], acc * 16 + HexDigitValue(s[0]))
  }

  /** The characters parseInt trims from the front: white space and line terminators. */
  predicate JsSpace(c: char)
  {
    || c == '\t' || c == '\n' || c == '\U{000B}' || c == '\U{000C}' || c == '\r' || c == ' '
    || c == '\U{00A0}' || c == '\U{1680}' || ('\U{2000}' <= c <= '\U{200A}')
    || c == '\U{2028}' || c == '\U{2029}' || c == '\U{202F}' || c == '\U{205F}'
    || c == '\U{3000}' || c == '\U{FEFF}'
  }

  /** s without its leading white space. */
  function TrimStart(s: string): (t: string)
    ensures |t| <= |s|
    ensures t == [] || !JsSpace(t[0])
  {
    if s != [] && JsSpace(s[0]) then TrimStart(s[1..]) else s
  }

  /** parseInt(s, 16): leading white space is skipped, then one optional sign, then one
      optional "0x" or "0X", then the leading hexadecimal digits are read; None stands
      for NaN, when no digit follows. */
  function ParseHex(s: string): (r: Option<int>)
    ensures r.Some? <==> var w := HexBody(s); w != [] && HexDigitValue(w[0]) >= 0
  {
    var t := TrimStart(s);
    var w := HexBody(s);
    if w == [] || HexDigitValue(w[0]) < 0 then None
    else
      var v: int := HexPrefixValue(w, 0);
      if t != [] && t[0] == '-' then Some(-v) else Some(v)
  }

  /** What parseInt(s, 16) reads its digits from: s trimmed, without a sign and without a
      "0x" or "0X" prefix. */
  function HexBody(s: string): string
  {
    var t := TrimStart(s);
    var u := if t != [] && (t[0] == '-' || t[0] == '+') then t[1..] else t;
    if |u| >= 2 && u[0] == '0' && (u[1] == 'x' || u[1] == 'X') then u[2..] else u
  }

  /** parseInt(hex.slice(1), 16), with NaN read as 0 (NaN shifts to 0). */
  function HexNumber(hex: string): int
  {
    match ParseHex(if |hex| == 0 then "" else hex[1..]) case None => 0 case Some(v) => v
  }

  /** The byte channels hexToRgb reads: (n >> 16) & 255, (n >> 8) & 255 and n & 255. */
  function RedOf(hex: string): int { (HexNumber(hex) / 65536) % 256 }
  function GreenOf(hex: string): int { (HexNumber(hex) / 256) % 256 }
  function BlueOf(hex: string): int { HexNumber(hex) % 256 }

  /** hexToRgb(hex): channels (n >> 16) & 255, (n >> 8) & 255, n & 255 of n = parseInt(hex.slice(1), 16).
      A NaN shifts to 0. */
  function HexToRgb(hex: string): (c: Rgb)
    ensures 0.0 <= c.r <= 255.0 && 0.0 <= c.g <= 255.0 && 0.0 <= c.b <= 255.0
  {
    Rgb(RedOf(hex) as real, GreenOf(hex) as real, BlueOf(hex) as real)
  }

  /** hexToRgb on text that is not rgbToHex output: parseInt reads a minus sign, and a
      negative n has its two's-complement bytes. */
  lemma HexToRgbNegative()
    ensures HexToRgb("#-0000ff") == Rgb(255.0, 255.0, 1.0)
  {
    var t := "-0000ff";
    assert "#-0000ff"[1..] == t;
    assert TrimStart(t) == t;
    assert HexBody(t) == t[1..];
    HexPrefixSix(t[1..]);
    assert ParseHex(t) == Some(-255);
  }

  /** parseInt drops a "0x" prefix. */
  lemma HexToRgbPrefix()
    ensures HexToRgb("#0x1f") == Rgb(0.0, 0.0, 31.0)
  {
    var t := "0x1f";
    assert "#0x1f"[1..] == t;
    assert TrimStart(t) == t;
    assert HexBody(t) == t[2..];
    var d := t[2..];
    assert d[0] == '1' && d[1] == 'f' && d[1..][0] == 'f' && d[1..][1..] == [];
    assert HexPrefixValue(d[1..], 1) == 31;
    assert HexPrefixValue(d, 0) == 31;
  }

  /** parseInt skips leading white space, and text without a digit is NaN, read as 0. */
  lemma HexToRgbSpace()
    ensures HexToRgb("# ff") == Rgb(0.0, 0.0, 255.0)
    ensures HexToRgb("#zz") == Rgb(0.0, 0.0, 0.0)
  {
    var t := " ff";
    assert "# ff"[1..] == t;
    assert TrimStart(t) == t[1..];
    assert HexBody(t) == t[1..];
    assert t[1..][1..][1..] == [];
    assert HexPrefixValue(t[1..], 0) == 255;
    assert "#zz"[1..] == "zz";
    assert HexBody("zz") == "zz";
  }

  lemma ByteHexValue(v: int)
    requires 0 <= v <= 255
    ensures HexDigitValue(ByteHex(v)[0]) == v / 16 && HexDigitValue(ByteHex(v)[1]) == v % 16
  {
  }

  /** Reading one more hexadecimal digit. */
  lemma HexPrefixStep(s: string, acc: nat)
    requires s != [] && HexDigitValue(s[0]) >= 0
    ensures HexPrefixValue(s, acc) == HexPrefixValue(s[1..], acc * 16 + HexDigitValue(s[0]))
  {
  }

  /** The value of a string of exactly six hexadecimal digits. */
  lemma HexPrefixSix(t: string)
    requires |t| == 6 && forall i :: 0 <= i < 6 ==> HexDigitValue(t[i]) >= 0
    ensures HexPrefixValue(t, 0) ==
      ((((HexDigitValue(t[0]) * 16 + HexDigitValue(t[1])) * 16 + HexDigitValue(t[2])) * 16
        + HexDigitValue(t[3])) * 16 + HexDigitValue(t[4])) * 16 + HexDigitValue(t[5])
  {
    var v0, v1, v2 := HexDigitValue(t[0]), HexDigitValue(t[1]), HexDigitValue(t[2]);
    var v3, v4, v5 := HexDigitValue(t[3]), HexDigitValue(t[4]), HexDigitValue(t[5]);
    var a1: nat := v0;
    var a2: nat := a1 * 16 + v1;
    var a3: nat := a2 * 16 + v2;
    var a4: nat := a3 * 16 + v3;
    var a5: nat := a4 * 16 + v4;
    var a6: nat := a5 * 16 + v5;
    assert t[1..][0] == t[1] && t[1..][1..] == t[2..];
    assert t[2..][0] == t[2] && t[2..][1..] == t[3..];
    assert t[3..][0] == t[3] && t[3..][1..] == t[4..];
    assert t[4..][0] == t[4] && t[4..][1..] == t[5..];
    assert t[5..][0] == t[5] && t[5..][1..] == [];
    HexPrefixStep(t, 0);
    HexPrefixStep(t[1..], a1);
    HexPrefixStep(t[2..], a2);
    HexPrefixStep(t[3..], a3);
    HexPrefixStep(t[4..], a4);
    HexPrefixStep(t[5..], a5);
  }

  /** The hexadecimal value of three encoded bytes. */
  lemma ParseSixHex(cr: int, cg: int, cb: int)
    requires 0 <= cr <= 255 && 0 <= cg <= 255 && 0 <= cb <= 255
    ensures ParseHex(ByteHex(cr) + ByteHex(cg) + ByteHex(cb)) == Some(cr * 65536 + cg * 256 + cb)
  {
    var t := ByteHex(cr) + ByteHex(cg) + ByteHex(cb);
    assert HexPrefixValue(t, 0) == cr * 65536 + cg * 256 + cb by {
      ByteHexValue(cr); ByteHexValue(cg); ByteHexValue(cb);
      assert HexDigitValue(t[0]) == cr / 16 && HexDigitValue(t[1]) == cr % 16;
      assert HexDigitValue(t[2]) == cg / 16 && HexDigitValue(t[3]) == cg % 16;
      assert HexDigitValue(t[4]) == cb / 16 && HexDigitValue(t[5]) == cb % 16;
      HexPrefixSix(t);
    }
    assert HexDigitValue(t[0]) >= 0 && HexDigitValue(t[1]) >= 0 by {
      ByteHexValue(cr);
    }
    PlainDigits(t);
  }

  /** A string that starts with two hexadecimal digits has no space, sign or prefix to skip. */
  lemma PlainDigits(t: string)
    requires |t| >= 2 && HexDigitValue(t[0]) >= 0 && HexDigitValue(t[1]) >= 0
    ensures ParseHex(t) == Some(HexPrefixValue(t, 0))
  {
    DigitIsPlain(t[0]);
    DigitIsPlain(t[1]);
    assert TrimStart(t) == t;
    assert HexBody(t) == t;
  }

  /** A hexadecimal digit is not white space, not a sign and not the x of a prefix. */
  lemma DigitIsPlain(c: char)
    requires HexDigitValue(c) >= 0
    ensures !JsSpace(c) && c != '-' && c != '+' && c != 'x' && c != 'X'
  {
  }

  lemma SplitChannels(cr: int, cg: int, cb: int)
    requires 0 <= cr <= 255 && 0 <= cg <= 255 && 0 <= cb <= 255
    ensures var n := cr * 65536 + cg * 256 + cb;
            (n / 65536) % 256 == cr && (n / 256) % 256 == cg && n % 256 == cb
  {
    var n := cr * 65536 + cg * 256 + cb;
    assert n / 65536 == cr;
    assert n / 256 == cr * 256 + cg;
    assert (cr * 256 + cg) % 256 == cg;
  }

  /** Decoding an encoded colour gives back its rounded, clamped channels. */
  lemma RgbToHexRoundTrip(r: real, g: real, b: real)
    ensures HexToRgb(RgbToHex(r, g, b)) == Rgb(Channel(r) as real, Channel(g) as real, Channel(b) as real)
  {
    var cr, cg, cb := Channel(r), Channel(g), Channel(b);
    var s := RgbToHex(r, g, b);
    assert s[1..] == ByteHex(cr) + ByteHex(cg) + ByteHex(cb);
    ParseSixHex(cr, cg, cb);
    SplitChannels(cr, cg, cb);
  }

  /** On integer channels in 0..255 the encoding is inverted exactly. */
  lemma HexRoundTripBytes(r: int, g: int, b: int)
    requires 0 <= r <= 255 && 0 <= g <= 255 && 0 <= b <= 255
    ensures HexToRgb(RgbToHex(r as real, g as real, b as real)) == Rgb(r as real, g as real, b as real)
  {
    assert Channel(r as real) == r && Channel(g as real) == g && Channel(b as real) == b;
    RgbToHexRoundTrip(r as real, g as real, b as real);
  }

  function Max3(a: real, b: real, c: real): (m: real)
    ensures a <= m && b <= m && c <= m && (m == a || m == b || m == c)
  {
    MaxReal(MaxReal(a, b), c)
  }

  function Min3(a: real, b: real, c: real): (m: real)
    ensures m <= a && m <= b && m <= c && (m == a || m == b || m == c)
  {
    if a <= b && a <= c then a else if b <= c then b else c
  }

  /** satOf(r, g, b): 0 for black, else (max - min) / max. */
  function SatOf(r: real, g: real, b: real): (s: real)
    ensures Max3(r, g, b) == 0.0 ==> s == 0.0
    ensures 0.0 <= r && 0.0 <= g && 0.0 <= b ==> 0.0 <= s <= 1.0
  {
    var mx, mn := Max3(r, g, b), Min3(r, g, b);
    if mx == 0.0 then 0.0
    else
      if 0.0 <= r && 0.0 <= g && 0.0 <= b then FractionAtMostOne(mx - mn, mx); (mx - mn) / mx
      else (mx - mn) / mx
  }

  lemma FractionAtMostOne(a: real, b: real)
    requires 0.0 <= a <= b && 0.0 < b
    ensures 0.0 <= a / b <= 1.0
  {
    var q := a / b;
    assert q * b == a;
  }

  /** lumOf(r, g, b): Rec. 709 luma weights. */
  function LumOf(r: real, g: real, b: real): real
  {
    0.2126 * r + 0.7152 * g + 0.0722 * b
  }

  /** The squared colour distance; Math.hypot(dr, dg, db) < t exactly when Dist2 < t * t and t > 0. */
  function Dist2(p: Rgb, c: Rgb): real
  {
    (p.r - c.r) * (p.r - c.r) + (p.g - c.g) * (p.g - c.g) + (p.b - c.b) * (p.b - c.b)
  }

  lemma RoundBelow(x: real, v: int)
    requires 0.0 <= x <= v as real && v <= 255
    ensures 0 <= Channel(x) <= v
  {
  }

  lemma RoundAbove(x: real, v: int)
    requires 0 <= v && v as real <= x <= 255.0
    ensures v <= Channel(x) <= 255
  {
  }

  lemma ScaleWithin(x: real, k: real)
    requires 0.0 <= x && 0.0 <= k <= 1.0
    ensures 0.0 <= x * k <= x
  {
    assert x - x * k == x * (1.0 - k);
  }

  /** One channel of shade: never above the original for 0 <= amt <= 1. */
  function ShadeByte(v: int, amt: real): (w: int)
    requires 0 <= v <= 255
    ensures 0 <= w <= 255
    ensures 0.0 <= amt <= 1.0 ==> w <= v
  {
    if 0.0 <= amt <= 1.0 then
      ScaleWithin(v as real, 1.0 - amt);
      RoundBelow(v as real * (1.0 - amt), v);
      Channel(v as real * (1.0 - amt))
    else Channel(v as real * (1.0 - amt))
  }

  /** One channel of lighten: never below the original for 0 <= amt <= 1. */
  function LightenByte(v: int, amt: real): (w: int)
    requires 0 <= v <= 255
    ensures 0 <= w <= 255
    ensures 0.0 <= amt <= 1.0 ==> v <= w
  {
    var x := v as real;
    if 0.0 <= amt <= 1.0 then
      ScaleWithin(255.0 - x, amt);
      RoundAbove(x + (255.0 - x) * amt, v);
      Channel(x + (255.0 - x) * amt)
    else Channel(x + (255.0 - x) * amt)
  }

  /** shade(hex, amt) = rgbToHex(r * (1 - amt), g * (1 - amt), b * (1 - amt)) for [r, g, b] = hexToRgb(hex),
      written channel by channel: rgbToHex encodes each channel as ByteHex(Channel(_)). */
  function Shade(hex: string, amt: real): (s: string)
    ensures |s| == 7 && s[0] == '#'
    ensures HexToRgb(s) == Rgb(ShadeByte(RedOf(hex), amt) as real, ShadeByte(GreenOf(hex), amt) as real,
                               ShadeByte(BlueOf(hex), amt) as real)
  {
    var r, g, b := ShadeByte(RedOf(hex), amt), ShadeByte(GreenOf(hex), amt), ShadeByte(BlueOf(hex), amt);
    var s := "#" + ByteHex(r) + ByteHex(g) + ByteHex(b);
    DecodeBytes(s, r, g, b);
    s
  }

  /** lighten(hex, amt) = rgbToHex(r + (255 - r) * amt, ...) for [r, g, b] = hexToRgb(hex), channel by channel. */
  function Lighten(hex: string, amt: real): (s: string)
    ensures |s| == 7 && s[0] == '#'
    ensures HexToRgb(s) == Rgb(LightenByte(RedOf(hex), amt) as real, LightenByte(GreenOf(hex), amt) as real,
                               LightenByte(BlueOf(hex), amt) as real)
  {
    var r, g, b := LightenByte(RedOf(hex), amt), LightenByte(GreenOf(hex), amt), LightenByte(BlueOf(hex), amt);
    var s := "#" + ByteHex(r) + ByteHex(g) + ByteHex(b);
    DecodeBytes(s, r, g, b);
    s
  }

  /** Three encoded bytes decode exactly. */
  lemma DecodeBytes(s: string, r: int, g: int, b: int)
    requires 0 <= r <= 255 && 0 <= g <= 255 && 0 <= b <= 255
    requires s == "#" + ByteHex(r) + ByteHex(g) + ByteHex(b)
    ensures HexToRgb(s) == Rgb(r as real, g as real, b as real)
  {
    assert s[1..] == ByteHex(r) + ByteHex(g) + ByteHex(b);
    ParseSixHex(r, g, b);
    SplitChannels(r, g, b);
  }

  /** For 0 <= amt <= 1, shade never makes a channel brighter. */
  lemma ShadeDarkens(hex: string, amt: real)
    requires 0.0 <= amt <= 1.0
    ensures var c, d := HexToRgb(hex), HexToRgb(Shade(hex, amt));
            d.r <= c.r && d.g <= c.g && d.b <= c.b
  {
    DecodeBytes(Shade(hex, amt), ShadeByte(RedOf(hex), amt), ShadeByte(GreenOf(hex), amt), ShadeByte(BlueOf(hex), amt));
  }

  /** For 0 <= amt <= 1, lighten never makes a channel darker. */
  lemma LightenBrightens(hex: string, amt: real)
    requires 0.0 <= amt <= 1.0
    ensures var c, d := HexToRgb(hex), HexToRgb(Lighten(hex, amt));
            c.r <= d.r && c.g <= d.g && c.b <= d.b
  {
    DecodeBytes(Lighten(hex, amt), LightenByte(RedOf(hex), amt), LightenByte(GreenOf(hex), amt), LightenByte(BlueOf(hex), amt));
  }
}
