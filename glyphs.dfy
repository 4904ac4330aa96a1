/** The 5x7 master bitmaps of the vector font: one pattern per upper-case letter,
    digit and the space, rows top to bottom, '#' filled and '.' empty. */
module Glyphs {
  type Pattern = seq<string>

  const Table: map<char, Pattern> :=
    map[
      'A' := [".###.", "#...#", "#...#", "#####", "#...#", "#...#", "#...#"],
      'B' := ["####.", "#...#", "#...#", "####.", "#...#", "#...#", "####."],
      'C' := [".####", "#....", "#....", "#....", "#....", "#....", ".####"],
      'D' := ["####.", "#...#", "#...#", "#...#", "#...#", "#...#", "####."],
      'E' := ["#####", "#....", "#....", "####.", "#....", "#....", "#####"],
      'F' := ["#####", "#....", "#....", "####.", "#....", "#....", "#...."],
      'G' := [".####", "#....", "#....", "#.###", "#...#", "#...#", ".###."],
      'H' := ["#...#", "#...#", "#...#", "#####", "#...#", "#...#", "#...#"],
      'I' := ["#####", "..#..", "..#..", "..#..", "..#..", "..#..", "#####"],
      'J' := ["#####", "...#.", "...#.", "...#.", "...#.", "#..#.", ".##.."],
      'K' := ["#...#", "#..#.", "#.#..", "##...", "#.#..", "#..#.", "#...#"],
      'L' := ["#....", "#....", "#....", "#....", "#....", "#....", "#####"],
      'M' := ["#...#", "##.##", "#.#.#", "#.#.#", "#...#", "#...#", "#...#"],
      'N' := ["#...#", "##..#", "#.#.#", "#..##", "#...#", "#...#", "#...#"],
      'O' := [".###.", "#...#", "#...#", "#...#", "#...#", "#...#", ".###."],
      'P' := ["####.", "#...#", "#...#", "####.", "#....", "#....", "#...."],
      'Q' := [".###.", "#...#", "#...#", "#...#", "#.#.#", "#..#.", ".##.#"],
      'R' := ["####.", "#...#", "#...#", "####.", "#.#..", "#..#.", "#...#"],
      'S' := [".####", "#....", "#....", ".###.", "....#", "....#", "####."],
      'T' := ["#####", "..#..", "..#..", "..#..", "..#..", "..#..", "..#.."],
      'U' := ["#...#", "#...#", "#...#", "#...#", "#...#", "#...#", ".###."],
      'V' := ["#...#", "#...#", "#...#", "#...#", "#...#", ".#.#.", "..#.."],
      'W' := ["#...#", "#...#", "#...#", "#.#.#", "#.#.#", "##.##", "#...#"],
      'X' := ["#...#", ".#.#.", "..#..", "..#..", "..#..", ".#.#.", "#...#"],
      'Y' := ["#...#", ".#.#.", "..#..", "..#..", "..#..", "..#..", "..#.."],
      'Z' := ["#####", "....#", "...#.", "..#..", ".#...", "#....", "#####"],
      '0' := [".###.", "#..##", "#.#.#", "#.#.#", "##..#", "#...#", ".###."],
      '1' := ["..#..", ".##..", "..#..", "..#..", "..#..", "..#..", "#####"],
      '2' := [".###.", "#...#", "....#", "...#.", "..#..", ".#...", "#####"],
      '3' := ["#####", "....#", "...#.", "..##.", "....#", "#...#", ".###."],
      '4' := ["...#.", "..##.", ".#.#.", "#..#.", "#####", "...#.", "...#."],
      '5' := ["#####", "#....", "####.", "....#", "....#", "#...#", ".###."],
      '6' := [".###.", "#....", "####.", "#...#", "#...#", "#...#", ".###."],
      '7' := ["#####", "....#", "...#.", "..#..", "..#..", "..#..", "..#.."],
      '8' := [".###.", "#...#", "#...#", ".###.", "#...#", "#...#", ".###."],
      '9' := [".###.", "#...#", "#...#", ".####", "....#", "....#", ".###."],
      ' ' := [".....", ".....", ".....", ".....", ".....", ".....", "....."]
    ]

  predicate IsCell(c: char) { c == '.' || c == '#' }

  /** Five cells. */
  predicate WellFormedRow(s: string)
  {
    |s| == 5 && IsCell(s[0]) && IsCell(s[1]) && IsCell(s[2]) && IsCell(s[3]) && IsCell(s[4])
  }

  /** Seven rows of five cells. */
  predicate WellFormed(p: Pattern)
  {
    && |p| == 7
    && WellFormedRow(p[0]) && WellFormedRow(p[1]) && WellFormedRow(p[2]) && WellFormedRow(p[3])
    && WellFormedRow(p[4]) && WellFormedRow(p[5]) && WellFormedRow(p[6])
  }

  predicate IsMasterChar(ch: char)
  {
    'A' <= ch <= 'Z' || '0' <= ch <= '9' || ch == ' '
  }

  /** The table covers exactly the upper-case letters, the digits and the space. */
  lemma TableKeys()
    ensures forall ch :: ch in Table <==> IsMasterChar(ch)
  {
  }

  /** Every entry has exactly seven rows of five '.' or '#' cells. */
  lemma TableWellFormed()
    ensures forall ch :: ch in Table ==> WellFormed(Table[ch])
  {
    forall ch | ch in Table ensures WellFormed(Table[ch]) {
      if ch == 'A' { EntryWellFormedA(); }
      else if ch == 'B' { EntryWellFormedB(); }
      else if ch == 'C' { EntryWellFormedC(); }
      else if ch == 'D' { EntryWellFormedD(); }
      else if ch == 'E' { EntryWellFormedE(); }
      else if ch == 'F' { EntryWellFormedF(); }
      else if ch == 'G' { EntryWellFormedG(); }
      else if ch == 'H' { EntryWellFormedH(); }
      else if ch == 'I' { EntryWellFormedI(); }
      else if ch == 'J' { EntryWellFormedJ(); }
      else if ch == 'K' { EntryWellFormedK(); }
      else if ch == 'L' { EntryWellFormedL(); }
      else if ch == 'M' { EntryWellFormedM(); }
      else if ch == 'N' { EntryWellFormedN(); }
      else if ch == 'O' { EntryWellFormedO(); }
      else if ch == 'P' { EntryWellFormedP(); }
      else if ch == 'Q' { EntryWellFormedQ(); }
      else if ch == 'R' { EntryWellFormedR(); }
      else if ch == 'S' { EntryWellFormedS(); }
      else if ch == 'T' { EntryWellFormedT(); }
      else if ch == 'U' { EntryWellFormedU(); }
      else if ch == 'V' { EntryWellFormedV(); }
      else if ch == 'W' { EntryWellFormedW(); }
      else if ch == 'X' { EntryWellFormedX(); }
      else if ch == 'Y' { EntryWellFormedY(); }
      else if ch == 'Z' { EntryWellFormedZ(); }
      else if ch == '0' { EntryWellFormed0(); }
      else if ch == '1' { EntryWellFormed1(); }
      else if ch == '2' { EntryWellFormed2(); }
      else if ch == '3' { EntryWellFormed3(); }
      else if ch == '4' { EntryWellFormed4(); }
      else if ch == '5' { EntryWellFormed5(); }
      else if ch == '6' { EntryWellFormed6(); }
      else if ch == '7' { EntryWellFormed7(); }
      else if ch == '8' { EntryWellFormed8(); }
      else if ch == '9' { EntryWellFormed9(); }
      else if ch == ' ' { EntryWellFormedSpace(); }
    }
  }

  // One lemma per entry, so that each looks up a single key of the table literal.
  lemma EntryWellFormedA() ensures WellFormed(Table['A']) { }
  lemma EntryWellFormedB() ensures WellFormed(Table['B']) { }
  lemma EntryWellFormedC() ensures WellFormed(Table['C']) { }
  lemma EntryWellFormedD() ensures WellFormed(Table['D']) { }
  lemma EntryWellFormedE() ensures WellFormed(Table['E']) { }
  lemma EntryWellFormedF() ensures WellFormed(Table['F']) { }
  lemma EntryWellFormedG() ensures WellFormed(Table['G']) { }
  lemma EntryWellFormedH() ensures WellFormed(Table['H']) { }
  lemma EntryWellFormedI() ensures WellFormed(Table['I']) { }
  lemma EntryWellFormedJ() ensures WellFormed(Table['J']) { }
  lemma EntryWellFormedK() ensures WellFormed(Table['K']) { }
  lemma EntryWellFormedL() ensures WellFormed(Table['L']) { }
  lemma EntryWellFormedM() ensures WellFormed(Table['M']) { }
  lemma EntryWellFormedN() ensures WellFormed(Table['N']) { }
  lemma EntryWellFormedO() ensures WellFormed(Table['O']) { }
  lemma EntryWellFormedP() ensures WellFormed(Table['P']) { }
  lemma EntryWellFormedQ() ensures WellFormed(Table['Q']) { }
  lemma EntryWellFormedR() ensures WellFormed(Table['R']) { }
  lemma EntryWellFormedS() ensures WellFormed(Table['S']) { }
  lemma EntryWellFormedT() ensures WellFormed(Table['T']) { }
  lemma EntryWellFormedU() ensures WellFormed(Table['U']) { }
  lemma EntryWellFormedV() ensures WellFormed(Table['V']) { }
  lemma EntryWellFormedW() ensures WellFormed(Table['W']) { }
  lemma EntryWellFormedX() ensures WellFormed(Table['X']) { }
  lemma EntryWellFormedY() ensures WellFormed(Table['Y']) { }
  lemma EntryWellFormedZ() ensures WellFormed(Table['Z']) { }
  lemma EntryWellFormed0() ensures WellFormed(Table['0']) { }
  lemma EntryWellFormed1() ensures WellFormed(Table['1']) { }
  lemma EntryWellFormed2() ensures WellFormed(Table['2']) { }
  lemma EntryWellFormed3() ensures WellFormed(Table['3']) { }
  lemma EntryWellFormed4() ensures WellFormed(Table['4']) { }
  lemma EntryWellFormed5() ensures WellFormed(Table['5']) { }
  lemma EntryWellFormed6() ensures WellFormed(Table['6']) { }
  lemma EntryWellFormed7() ensures WellFormed(Table['7']) { }
  lemma EntryWellFormed8() ensures WellFormed(Table['8']) { }
  lemma EntryWellFormed9() ensures WellFormed(Table['9']) { }
  lemma EntryWellFormedSpace() ensures WellFormed(Table[' ']) { }

  /** GLYPHS[ch] || GLYPHS[" "]: a character without a master falls back to the space. */
  function GlyphFor(ch: char): (p: Pattern)
    ensures ch in Table ==> p == Table[ch]
    ensures ch !in Table ==> p == Table[' ']
  {
    if ch in Table then Table[ch] else Table[' ']
  }

  /** No cell of the pattern is filled. */
  predicate Blank(p: Pattern)
  {
    forall r, c :: 0 <= r < |p| && 0 <= c < |p[r]| ==> p[r][c] != '#'
  }

  /** The space glyph has no filled cell. */
  lemma SpaceIsBlank()
    ensures Blank(Table[' '])
  {
    var p := Table[' '];
    forall r, c | 0 <= r < |p| && 0 <= c < |p[r]| ensures p[r][c] != '#' {
      assert p[r] == ".....";
    }
  }

  /** Every glyph the lookup can give is well formed, and the fallback has no filled cell. */
  lemma GlyphShape(ch: char)
    ensures WellFormed(GlyphFor(ch))
    ensures !IsMasterChar(ch) ==> Blank(GlyphFor(ch))
  {
    TableKeys();
    if ch in Table {
      TableWellFormed();
    } else {
      EntryWellFormedSpace();
      SpaceIsBlank();
    }
  }
}
