/** The seven material swatches of the React book (swatchPlain ... swatchSequin and
    makeSwatch).  A swatch is kept as the values its SVG template is filled with:
    the colours, the pattern scale or filter parameters, and the fixed element id
    the template writes (the same id for every swatch of a kind). */
module Swatch {
  import opened Common

  datatype Swatch =
    | Plain(c1: string, c2: string, scale: real)
    | Twill(base: string, hi: string, scale: real)
    | Rib(b: string, hi: string, scale: real)
    | Herringbone(a: string, b2: string, scale: real)
    | Satin(c: string, shineOpacity: real)
    | Leather(c: string, baseFrequency: real, displacement: real)
    | Sequin(bg: string, circles: seq<string>)

  /** const [x = colors[i] || dflt] = colors: the default applies only when colors has no element i. */
  function ColorAt(colors: seq<string>, i: nat, dflt: string): (c: string)
    ensures i < |colors| ==> c == colors[i]
    ensures i >= |colors| ==> c == dflt
  {
    if i < |colors| then colors[i] else dflt
  }

  /** The id of the pattern, gradient or filter the template defines; sequin defines none. */
  function ElementId(s: Swatch): Option<string>
  {
    match s
    case Plain(_, _, _) => Some("plain")
    case Twill(_, _, _) => Some("twill")
    case Rib(_, _, _) => Some("rib")
    case Herringbone(_, _, _) => Some("hb")
    case Satin(_, _) => Some("sat")
    case Leather(_, _, _) => Some("pebble")
    case Sequin(_, _) => None
  }

  /** The twill pattern is rotated by 45 degrees; no other is. */
  function Rotation(s: Swatch): real
  {
    if s.Twill? then 45.0 else 0.0
  }

  function SwatchPlain(colors: seq<string>, strength: real): (s: Swatch)
    ensures s.Plain? && s.scale == 1.0 + strength / 80.0
    ensures s.c1 == ColorAt(colors, 0, "#d7d7d7") && s.c2 == ColorAt(colors, 1, "#bdbdbd")
  {
    Plain(ColorAt(colors, 0, "#d7d7d7"), ColorAt(colors, 1, "#bdbdbd"), 1.0 + strength / 80.0)
  }

  function SwatchTwill(colors: seq<string>, strength: real): (s: Swatch)
    ensures s.Twill? && s.scale == 1.0 + strength / 75.0
    ensures s.base == ColorAt(colors, 0, "#6e7ea0") && s.hi == ColorAt(colors, 1, "#a8b6d1")
  {
    Twill(ColorAt(colors, 0, "#6e7ea0"), ColorAt(colors, 1, "#a8b6d1"), 1.0 + strength / 75.0)
  }

  function SwatchRib(colors: seq<string>, strength: real): (s: Swatch)
    ensures s.Rib? && s.scale == 1.0 + strength / 60.0
    ensures s.b == ColorAt(colors, 0, "#c9c9c9") && s.hi == ColorAt(colors, 1, "#e8e8e8")
  {
    Rib(ColorAt(colors, 0, "#c9c9c9"), ColorAt(colors, 1, "#e8e8e8"), 1.0 + strength / 60.0)
  }

  function SwatchHerringbone(colors: seq<string>, strength: real): (s: Swatch)
    ensures s.Herringbone? && s.scale == 1.0 + strength / 80.0
    ensures s.a == ColorAt(colors, 0, "#7b7b7b") && s.b2 == ColorAt(colors, 1, "#9a9a9a")
  {
    Herringbone(ColorAt(colors, 0, "#7b7b7b"), ColorAt(colors, 1, "#9a9a9a"), 1.0 + strength / 80.0)
  }

  function SwatchSatin(colors: seq<string>, strength: real): (s: Swatch)
    ensures s.Satin? && s.shineOpacity == 0.35 + strength / 300.0
    ensures s.c == ColorAt(colors, 0, "#d2d2d2")
  {
    Satin(ColorAt(colors, 0, "#d2d2d2"), 0.35 + strength / 300.0)
  }

  function SwatchLeather(colors: seq<string>, strength: real): (s: Swatch)
    ensures s.Leather? && s.displacement == 6.0 + strength / 4.0
    ensures s.baseFrequency >= 0.2
    ensures s.baseFrequency >= 0.9 - strength / 120.0
    ensures s.baseFrequency == 0.2 || s.baseFrequency == 0.9 - strength / 120.0
    ensures s.c == ColorAt(colors, 0, "#6c4a3a")
  {
    Leather(ColorAt(colors, 0, "#6c4a3a"), MaxReal(0.2, 0.9 - strength / 120.0), 6.0 + strength / 4.0)
  }

  /** 80 + Math.round(strength * 1.2) circles; Array.from reads a negative length as 0. */
  function SequinCount(strength: real): (n: nat)
    ensures n as int == if 80 + JsRound(strength * 1.2) < 0 then 0 else 80 + JsRound(strength * 1.2)
  {
    var k := 80 + JsRound(strength * 1.2);
    if k < 0 then 0 else k
  }

  /** The circle colours of the sequin swatch: every third circle, from the first, sparkles. */
  function SequinCircles(count: nat, shine: string, sparkle: string): (cs: seq<string>)
    ensures |cs| == count
    ensures forall i :: 0 <= i < count ==> cs[i] == if i % 3 == 0 then sparkle else shine
  {
    seq(count, i => if i % 3 == 0 then sparkle else shine)
  }

  function SwatchSequin(colors: seq<string>, strength: real): (s: Swatch)
    ensures s.Sequin? && |s.circles| == SequinCount(strength)
    ensures s.bg == ColorAt(colors, 0, "#2a2a2a")
    ensures forall i :: 0 <= i < |s.circles| ==>
              s.circles[i] == if i % 3 == 0 then ColorAt(colors, 2, "#ffffff") else ColorAt(colors, 1, "#f8f4dc")
  {
    Sequin(ColorAt(colors, 0, "#2a2a2a"),
           SequinCircles(SequinCount(strength), ColorAt(colors, 1, "#f8f4dc"), ColorAt(colors, 2, "#ffffff")))
  }

  /** The material names the dispatcher knows. */
  predicate KnownMaterial(t: string)
  {
    t in {"plain", "twill", "rib", "herringbone", "satin", "leather", "sequin"}
  }

  /** makeSwatch(type, colors, strength) */
  function MakeSwatch(t: string, colors: seq<string>, strength: real): (s: Swatch)
    ensures KindName(s) == if KnownMaterial(t) then t else "plain"
  {
    match t
    case "plain" => SwatchPlain(colors, strength)
    case "twill" => SwatchTwill(colors, strength)
    case "rib" => SwatchRib(colors, strength)
    case "herringbone" => SwatchHerringbone(colors, strength)
    case "satin" => SwatchSatin(colors, strength)
    case "leather" => SwatchLeather(colors, strength)
    case "sequin" => SwatchSequin(colors, strength)
    case _ => SwatchPlain(colors, strength)
  }

  /** The kind of swatch a material name selects. */
  function KindName(s: Swatch): string
  {
    match s
    case Plain(_, _, _) => "plain"
    case Twill(_, _, _) => "twill"
    case Rib(_, _, _) => "rib"
    case Herringbone(_, _, _) => "herringbone"
    case Satin(_, _) => "satin"
    case Leather(_, _, _) => "leather"
    case Sequin(_, _) => "sequin"
  }

  /** Each known name reaches its own renderer; every other string falls back to plain. */
  lemma MakeSwatchDispatch(t: string, colors: seq<string>, strength: real)
    ensures KnownMaterial(t) ==> KindName(MakeSwatch(t, colors, strength)) == t
    ensures !KnownMaterial(t) ==> MakeSwatch(t, colors, strength) == SwatchPlain(colors, strength)
  {
  }

  /** The element each template defines: the sequin swatch has none, the twill pattern
      alone is rotated, and every other string draws the plain pattern. */
  lemma MakeSwatchIds(t: string, colors: seq<string>, strength: real)
    ensures var s := MakeSwatch(t, colors, strength);
      && (ElementId(s).None? <==> t == "sequin")
      && (Rotation(s) == 45.0 <==> t == "twill")
      && (Rotation(s) == 0.0 <==> t != "twill")
      && (t == "herringbone" ==> ElementId(s) == Some("hb"))
      && (t == "satin" ==> ElementId(s) == Some("sat"))
      && (t == "leather" ==> ElementId(s) == Some("pebble"))
      && ((t == "plain" || !KnownMaterial(t)) ==> ElementId(s) == Some("plain"))
      && (t == "twill" || t == "rib" ==> ElementId(s) == Some(t))
  {
  }

  /** The colours a swatch is drawn with, in the order its renderer reads them from
      colors (for sequin, the background; the circle colours are MakeSwatchSequin's). */
  function SwatchColors(s: Swatch): seq<string>
  {
    match s
    case Plain(c1, c2, _) => [c1, c2]
    case Twill(base, hi, _) => [base, hi]
    case Rib(b, hi, _) => [b, hi]
    case Herringbone(a, b2, _) => [a, b2]
    case Satin(c, _) => [c]
    case Leather(c, _, _) => [c]
    case Sequin(bg, _) => [bg]
  }

  /** Each renderer's default colours, by kind. */
  function DefaultColors(kind: string): seq<string>
  {
    match kind
    case "twill" => ["#6e7ea0", "#a8b6d1"]
    case "rib" => ["#c9c9c9", "#e8e8e8"]
    case "herringbone" => ["#7b7b7b", "#9a9a9a"]
    case "satin" => ["#d2d2d2"]
    case "leather" => ["#6c4a3a"]
    case "sequin" => ["#2a2a2a"]
    case _ => ["#d7d7d7", "#bdbdbd"]
  }

  /** Whatever the type, the swatch takes colour i from colors where colors has one and
      its renderer's default otherwise; with no colours it is drawn in the defaults. */
  lemma MakeSwatchDefaults(t: string, colors: seq<string>, strength: real)
    ensures var s := MakeSwatch(t, colors, strength); var d := DefaultColors(KindName(s));
      && |SwatchColors(s)| == |d|
      && (forall i :: 0 <= i < |d| ==> SwatchColors(s)[i] == if i < |colors| then colors[i] else d[i])
      && (colors == [] ==> SwatchColors(s) == d)
      && (|colors| >= |d| ==> SwatchColors(s) == colors[..|d|])
  {
    var s := MakeSwatch(t, colors, strength);
    var d := DefaultColors(KindName(s));
    if |colors| >= |d| {
      assert SwatchColors(s) == colors[..|d|];
    }
  }

  /** The sequin swatch: 80 + round(1.2 * strength) circles (none when that is negative),
      every third one from the first in colour 2, the others in colour 1, on colour 0. */
  lemma MakeSwatchSequin(colors: seq<string>, strength: real)
    ensures var s, k := MakeSwatch("sequin", colors, strength), 80 + JsRound(1.2 * strength);
      && s.Sequin?
      && |s.circles| == (if k < 0 then 0 else k)
      && s.bg == ColorAt(colors, 0, "#2a2a2a")
      && (forall i :: 0 <= i < |s.circles| && i % 3 == 0 ==> s.circles[i] == ColorAt(colors, 2, "#ffffff"))
      && (forall i :: 0 <= i < |s.circles| && i % 3 != 0 ==> s.circles[i] == ColorAt(colors, 1, "#f8f4dc"))
  {
    assert 1.2 * strength == strength * 1.2;
  }

  /** The renderers never look past the first three colours. */
  lemma MakeSwatchUsesThreeColors(t: string, colors: seq<string>, strength: real)
    requires |colors| >= 3
    ensures MakeSwatch(t, colors, strength) == MakeSwatch(t, colors[..3], strength)
  {
  }

  /** A stronger setting enlarges every pattern, brightens the satin sheen, deepens the leather
      displacement and never removes sequin circles. */
  lemma MakeSwatchMonotone(t: string, colors: seq<string>, s1: real, s2: real)
    requires s1 <= s2
    ensures var a, b := MakeSwatch(t, colors, s1), MakeSwatch(t, colors, s2);
      && ((a.Plain? || a.Twill? || a.Rib? || a.Herringbone?) ==> a.scale <= b.scale)
      && (a.Satin? ==> a.shineOpacity <= b.shineOpacity)
      && (a.Leather? ==> a.displacement <= b.displacement && a.baseFrequency >= b.baseFrequency)
      && (a.Sequin? ==> |a.circles| <= |b.circles|)
  {
    var a, b := MakeSwatch(t, colors, s1), MakeSwatch(t, colors, s2);
    if a.Sequin? {
      assert t == "sequin";
      assert s1 * 1.2 <= s2 * 1.2;
    }
  }
}
