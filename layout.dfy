/** Text layout and the keyboard settings of the vector font: each character is
    upper-cased and replaced by its master glyph, glyphs are placed left to right with a
    fixed advance, a newline starts the next line, and the key handler keeps the settings
    within their clamps. */
module Layout {
  import opened Common
  import opened Glyphs
  import opened Outline

  /** String.prototype.toUpperCase of one code point, as far as the glyph lookup can tell:
      the letters a-z, and the dotless i and the long s, become master letters; every
      other code point either stays as it is or becomes something without a master. */
  function Upper(ch: char): (u: char)
    ensures 'a' <= ch <= 'z' ==> u as int == ch as int - 32
    ensures !('a' <= ch <= 'z') && ch != '\U{0131}' && ch != '\U{017F}' ==> u == ch
  {
    if 'a' <= ch <= 'z' then (ch as int - 32) as char
    else if ch == '\U{0131}' then 'I'
    else if ch == '\U{017F}' then 'S'
    else ch
  }

  /** Upper-casing lands in the master table exactly for letters of either case, digits,
      the space and the two special lower-case letters; nothing becomes a newline. */
  lemma UpperMaster(ch: char)
    ensures IsMasterChar(Upper(ch)) <==>
            'A' <= ch <= 'Z' || 'a' <= ch <= 'z' || '0' <= ch <= '9' || ch == ' ' || ch == '\U{0131}' || ch == '\U{017F}'
    ensures Upper(ch) == '\n' <==> ch == '\n'
  {
  }

  /** The outline and metrics of one glyph (buildGlyphPoints, without the resampling of
      the contours into points). */
  datatype Glyph = Glyph(contours: seq<seq<Point>>, advance: real, height: real)

  /** The contours of a master glyph: lattice points of the 5 x 7 grid box, none for a
      blank pattern. */
  method GlyphContours(pat: Pattern, atan2: (real, real) -> real) returns (contours: seq<seq<Point>>)
    requires WellFormed(pat)
    ensures Blank(pat) ==> contours == []
    ensures forall k, i :: 0 <= k < |contours| && 0 <= i < |contours[k]| ==> 0 <= contours[k][i].0 <= 5 && 0 <= contours[k][i].1 <= 7
  {
    contours := PatternToContours(pat, atan2);
  }

  /** buildGlyphPoints: the glyph of ch, or of the space; its advance is (cols + 1) cells
      and its height (rows + 1) cells of size / 6. */
  method BuildGlyph(ch: char, size: real, atan2: (real, real) -> real) returns (g: Glyph)
    ensures g.advance == size && g.height == size * 4.0 / 3.0
    ensures !IsMasterChar(ch) ==> g.contours == []
    ensures forall k, i :: 0 <= k < |g.contours| && 0 <= i < |g.contours[k]| ==> 0 <= g.contours[k][i].0 <= 5 && 0 <= g.contours[k][i].1 <= 7
  {
    var pat := GlyphFor(ch);
    GlyphShape(ch);
    var contours := GlyphContours(pat, atan2);
    var cell := size / 6.0;
    GlyphMetrics(pat, size);
    g := Glyph(contours, (|pat[0]| + 1) as real * cell, (|pat| + 1) as real * cell);
  }

  /** A master glyph is six cells of size / 6 wide, advance included, and eight high. */
  lemma GlyphMetrics(pat: Pattern, size: real)
    requires WellFormed(pat)
    ensures (|pat[0]| + 1) as real * (size / 6.0) == size
    ensures (|pat| + 1) as real * (size / 6.0) == size * 4.0 / 3.0
  {
    assert |pat[0]| + 1 == 6 && |pat| + 1 == 8;
  }

  /** The number of newlines in s. */
  function Lines(s: string): nat
  {
    multiset(s)['\n']
  }

  /** The number of characters after the last newline of s. */
  function Column(s: string): nat
  {
    if s == [] || s[|s| - 1] == '\n' then 0 else Column(s[..|s| - 1]) + 1
  }

  /** k times the step r, the distance k advances or k lines cover, step by step. */
  function Times(k: nat, r: real): real
  {
    if k == 0 then 0.0 else Times(k - 1, r) + r
  }

  lemma {:induction false} TimesIsProduct(k: nat, r: real)
    ensures Times(k, r) == k as real * r
  {
    if k > 0 {
      TimesIsProduct(k - 1, r);
    }
  }

  /** A glyph of the laid-out text: its character and the origin it is drawn at. */
  datatype Placed = Placed(ch: char, x: real, y: real)

  /** The layout of str: every character but a newline becomes a glyph placed at its column
      times the advance plus spacing, 1.16 size, and its line times 1.4 size. */
  function LayoutSpec(str: string, size: real): (r: seq<Placed>)
    ensures forall k :: 0 <= k < |r| ==> r[k].ch != '\n'
  {
    if str == [] then []
    else
      var init, ch := str[..|str| - 1], Upper(str[|str| - 1]);
      LayoutSpec(init, size) +
        (if ch == '\n' then [] else [Placed(ch, Times(Column(init), size * 1.16), Times(Lines(init), size * 1.4))])
  }

  lemma LinesSnoc(s: string, c: char)
    ensures Lines(s + [c]) == Lines(s) + (if c == '\n' then 1 else 0)
  {
    assert multiset(s + [c]) == multiset(s) + multiset{c};
  }

  lemma ColumnSnoc(s: string, c: char)
    ensures Column(s + [c]) == if c == '\n' then 0 else Column(s) + 1
  {
    assert (s + [c])[..|s|] == s;
  }

  lemma LayoutSnoc(s: string, c: char, size: real)
    ensures LayoutSpec(s + [c], size) == LayoutSpec(s, size) +
              (if Upper(c) == '\n' then [] else [Placed(Upper(c), Times(Column(s), size * 1.16), Times(Lines(s), size * 1.4))])
  {
    var t := s + [c];
    assert t[..|t| - 1] == s && t[|t| - 1] == c;
  }

  /** A newline moves the pen to the start of the next line and places nothing. */
  lemma PenNewline(pre: string, c: char, size: real)
    requires Upper(c) == '\n'
    ensures LayoutSpec(pre + [c], size) == LayoutSpec(pre, size)
    ensures Column(pre + [c]) == 0 && Lines(pre + [c]) == Lines(pre) + 1
  {
    LayoutSnoc(pre, c, size);
    LinesSnoc(pre, c);
    ColumnSnoc(pre, c);
  }

  /** Any other character is placed at the pen, which then moves one column on. */
  lemma PenGlyph(pre: string, c: char, size: real)
    requires Upper(c) != '\n'
    ensures LayoutSpec(pre + [c], size) == LayoutSpec(pre, size) + [Placed(Upper(c), Times(Column(pre), size * 1.16), Times(Lines(pre), size * 1.4))]
    ensures Column(pre + [c]) == Column(pre) + 1 && Lines(pre + [c]) == Lines(pre)
  {
    LayoutSnoc(pre, c, size);
    LinesSnoc(pre, c);
    ColumnSnoc(pre, c);
  }

  /** layoutTextPoints, with each glyph's points replaced by the glyph placed at its origin. */
  method LayoutText(str: string, size: real, atan2: (real, real) -> real) returns (out: seq<Placed>)
    ensures out == LayoutSpec(str, size)
  {
    var x, y := 0.0, 0.0;
    out := [];
    var lineH := size * 1.4;
    var spacing := size * 0.16;
    var i := 0;
    while i < |str|
      invariant 0 <= i <= |str|
      invariant out == LayoutSpec(str[..i], size)
      invariant x == Times(Column(str[..i]), size * 1.16)
      invariant y == Times(Lines(str[..i]), size * 1.4)
    {
      var ch := Upper(str[i]);
      assert str[..i + 1] == str[..i] + [str[i]];
      if ch == '\n' {
        PenNewline(str[..i], str[i], size);
        x := 0.0;
        y := y + lineH;
      } else {
        PenGlyph(str[..i], str[i], size);
        var g := BuildGlyph(ch, size, atan2);
        out := out + [Placed(ch, x, y)];
        x := x + g.advance + spacing;
      }
      i := i + 1;
    }
    assert str[..|str|] == str;
  }

  /** The number of glyphs laid out: one per character that is not a newline. */
  function GlyphCount(s: string): nat
  {
    |s| - Lines(s)
  }

  lemma {:induction false} LayoutCount(str: string, size: real)
    ensures |LayoutSpec(str, size)| == GlyphCount(str)
    decreases |str|
  {
    if str != [] {
      var init := str[..|str| - 1];
      assert str == init + [str[|str| - 1]];
      LayoutCount(init, size);
      LinesSnoc(init, str[|str| - 1]);
      assert Lines(init) <= |init| by {
        assert multiset(init)['\n'] <= |multiset(init)|;
      }
    }
  }

  /** Text without a newline is a single line: every glyph sits at y = 0, the k-th at
      k times 1.16 size, and it carries the upper-cased character. */
  lemma {:induction false} SingleLine(str: string, size: real)
    requires forall i :: 0 <= i < |str| ==> str[i] != '\n'
    ensures |LayoutSpec(str, size)| == |str|
    ensures forall k :: 0 <= k < |str| ==> LayoutSpec(str, size)[k] == Placed(Upper(str[k]), Times(k, size * 1.16), 0.0)
    decreases |str|
  {
    if str != [] {
      var init := str[..|str| - 1];
      SingleLine(init, size);
      SingleLineColumn(init);
      assert Lines(init) == 0 by {
        assert '\n' !in multiset(init);
      }
    }
  }

  lemma {:induction false} SingleLineColumn(s: string)
    requires forall i :: 0 <= i < |s| ==> s[i] != '\n'
    ensures Column(s) == |s|
    decreases |s|
  {
    if s != [] {
      SingleLineColumn(s[..|s| - 1]);
    }
  }

  /** A newline moves what follows to the start of the next line. */
  lemma NewlineRestarts(s: string, size: real)
    ensures Column(s + ['\n']) == 0 && Lines(s + ['\n']) == Lines(s) + 1
    ensures LayoutSpec(s + ['\n'], size) == LayoutSpec(s, size)
  {
    ColumnSnoc(s, '\n');
    LinesSnoc(s, '\n');
    assert (s + ['\n'])[..|s|] == s;
  }

  /** The settings the key handler changes. */
  datatype State = State(stylisticSet: int, fontSize: int, noiseAmt: int, gridPix: int, seedLocked: bool)

  /** The clamps: size at least 30, noise at least 0, grid at least 2, style set 1 or 2. */
  predicate InRange(st: State)
  {
    st.fontSize >= 30 && st.noiseAmt >= 0 && st.gridPix >= 2 && (st.stylisticSet == 1 || st.stylisticSet == 2)
  }

  const Initial := State(1, 160, 12, 4, false)

  const UpArrow := 38
  const DownArrow := 40
  const LeftArrow := 37
  const RightArrow := 39

  /** A key press: the key string and the key code of p5. */
  datatype KeyEvent = KeyEvent(key: string, keyCode: int)

  /** keyPressed: the tests run one after the other, each on the state the previous left. */
  function KeyStep(st: State, ev: KeyEvent): (r: State)
    ensures InRange(st) ==> InRange(r)
    ensures ev.key == "[" ==> r.fontSize == MaxInt(30, st.fontSize - 8)
    ensures ev.key == "]" ==> r.fontSize == st.fontSize + 8
    ensures ev.key != "[" && ev.key != "]" ==> r.fontSize == st.fontSize
    ensures ev.key == " " <==> r.seedLocked != st.seedLocked
    ensures ev.key == "1" ==> r.stylisticSet == 1
    ensures ev.key == "2" ==> r.stylisticSet == 2
    ensures ev.key != "1" && ev.key != "2" ==> r.stylisticSet == st.stylisticSet
    ensures ev.keyCode == UpArrow ==> r.noiseAmt == st.noiseAmt + 1
    ensures ev.keyCode == DownArrow ==> r.noiseAmt == MaxInt(0, st.noiseAmt - 1)
    ensures ev.keyCode != UpArrow && ev.keyCode != DownArrow ==> r.noiseAmt == st.noiseAmt
    ensures ev.keyCode == LeftArrow ==> r.gridPix == MaxInt(2, st.gridPix - 1)
    ensures ev.keyCode == RightArrow ==> r.gridPix == st.gridPix + 1
    ensures ev.keyCode != LeftArrow && ev.keyCode != RightArrow ==> r.gridPix == st.gridPix
  {
    var s1 := if ev.key == "1" then st.(stylisticSet := 1) else st;
    var s2 := if ev.key == "2" then s1.(stylisticSet := 2) else s1;
    var s3 := if ev.key == "[" then s2.(fontSize := MaxInt(30, s2.fontSize - 8)) else s2;
    var s4 := if ev.key == "]" then s3.(fontSize := s3.fontSize + 8) else s3;
    var s5 := if ev.keyCode == UpArrow then s4.(noiseAmt := s4.noiseAmt + 1) else s4;
    var s6 := if ev.keyCode == DownArrow then s5.(noiseAmt := MaxInt(0, s5.noiseAmt - 1)) else s5;
    var s7 := if ev.keyCode == LeftArrow then s6.(gridPix := MaxInt(2, s6.gridPix - 1)) else s6;
    var s8 := if ev.keyCode == RightArrow then s7.(gridPix := s7.gridPix + 1) else s7;
    if ev.key == " " then s8.(seedLocked := !s8.seedLocked) else s8
  }

  function MaxInt(a: int, b: int): int { if a >= b then a else b }

  /** The settings after a sequence of key presses. */
  function Run(st: State, evs: seq<KeyEvent>): (r: State)
    ensures (forall i :: 0 <= i < |evs| ==> evs[i].key != " ") ==> r.seedLocked == st.seedLocked
    ensures (forall i :: 0 <= i < |evs| ==> evs[i].key != "[" && evs[i].key != "]") ==> r.fontSize == st.fontSize
    decreases |evs|
  {
    if evs == [] then st else Run(KeyStep(st, evs[0]), evs[1..])
  }

  /** From the initial settings, every sequence of key presses keeps them within the clamps. */
  lemma {:induction false} RunInRange(st: State, evs: seq<KeyEvent>)
    requires InRange(st)
    ensures InRange(Run(st, evs))
    decreases |evs|
  {
    if evs != [] {
      RunInRange(KeyStep(st, evs[0]), evs[1..]);
    }
  }

  lemma ReachableInRange(evs: seq<KeyEvent>)
    ensures InRange(Run(Initial, evs))
  {
    RunInRange(Initial, evs);
  }

  /** The global settings of the sketch. */
  class Settings {
    var stylisticSet: int
    var fontSize: int
    var noiseAmt: int
    var gridPix: int
    var seedLocked: bool

    function Current(): State
      reads this
    {
      State(stylisticSet, fontSize, noiseAmt, gridPix, seedLocked)
    }

    predicate Valid()
      reads this
    {
      InRange(Current())
    }

    constructor ()
      ensures Current() == Initial && Valid()
    {
      stylisticSet, fontSize, noiseAmt, gridPix, seedLocked := 1, 160, 12, 4, false;
    }

    method KeyPressed(ev: KeyEvent)
      requires Valid()
      modifies this
      ensures Current() == KeyStep(old(Current()), ev)
      ensures Valid()
    {
      if ev.key == "1" { stylisticSet := 1; }
      if ev.key == "2" { stylisticSet := 2; }
      if ev.key == "[" { fontSize := MaxInt(30, fontSize - 8); }
      if ev.key == "]" { fontSize := fontSize + 8; }
      if ev.keyCode == UpArrow { noiseAmt := noiseAmt + 1; }
      if ev.keyCode == DownArrow { noiseAmt := MaxInt(0, noiseAmt - 1); }
      if ev.keyCode == LeftArrow { gridPix := MaxInt(2, gridPix - 1); }
      if ev.keyCode == RightArrow { gridPix := gridPix + 1; }
      if ev.key == " " { seedLocked := !seedLocked; }
    }
  }
}
