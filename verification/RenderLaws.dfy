/** What each attribute of a cell, and the cursor, do to a pixel (term/textmode_render.c). */
module RenderLaws {
  import opened Words
  import opened Grid
  import opened Renderer

  /** Pixel `k` of line `l` of the cell at `row` and `col`. */
  function CellPixelAt(
    font: Scanlines, s: Screen, pal: Palette, beam: Beam, row: nat, col: nat, l: nat, k: nat): u16
    requires row < ROWS && col < COLS && l < 16 && k < 8
  {
    PixelAt(font, s, pal, beam, 8 * col + k, 40 + 16 * row + l)
  }

  /** The glyph of a character has ink there. */
  predicate HasInk(font: Scanlines, ch: byte, l: nat, k: nat)
    requires l < 16 && k < 8
  {
    Bit(font[l * 256 + ch], k)
  }

  predicate HasBit(attr: byte, bit: byte)
    requires bit in {1, 2, 4, 8}
  {
    attr / bit % 2 == 1
  }

  /** The blinking cursor is on this line of this cell. */
  predicate UnderCursor(beam: Beam, row: nat, col: nat, l: nat) {
    beam.visible && beam.phaseOn && beam.row == row && beam.col == col && beam.beg <= l && l <= beam.end
  }

  lemma OddSum(a: nat, b: nat, n: nat)
    requires a + b == 2 * n + 1
    ensures a % 2 == 1 <==> b % 2 != 1
  {
  }

  lemma High(g: byte)
    ensures g / 128 + (255 - g) / 128 == 1 && g / 64 + (255 - g) / 64 == 3
  {
  }

  lemma Middle(g: byte)
    ensures g / 32 + (255 - g) / 32 == 7 && g / 16 + (255 - g) / 16 == 15
  {
  }

  lemma Low(g: byte)
    ensures g / 8 + (255 - g) / 8 == 31 && g / 4 + (255 - g) / 4 == 63
  {
  }

  lemma Lowest(g: byte)
    ensures g / 2 + (255 - g) / 2 == 127
  {
  }

  lemma BitOfComplement(g: byte, k: nat)
    requires k < 8
    ensures Bit(255 - g, k) == !Bit(g, k)
  {
    match k
    case 0 => High(g);
    case 1 => High(g); OddSum(g / 64, (255 - g) / 64, 1);
    case 2 => Middle(g); OddSum(g / 32, (255 - g) / 32, 3);
    case 3 => Middle(g); OddSum(g / 16, (255 - g) / 16, 7);
    case 4 => Low(g); OddSum(g / 8, (255 - g) / 8, 15);
    case 5 => Low(g); OddSum(g / 4, (255 - g) / 4, 31);
    case 6 => Lowest(g); OddSum(g / 2, (255 - g) / 2, 63);
    case 7 => OddSum(g, 255 - g, 127);
  }

  lemma BitOfAll(k: nat)
    requires k < 8
    ensures Bit(255, k) && !Bit(0, k)
  {
  }

  /** The attributes by their bits. */
  lemma AttributeBits(attr: byte)
    ensures HasBit(attr, 1) == Underlined(attr) && HasBit(attr, 2) == Blinking(attr) && HasBit(attr, 8) == Inverse(attr)
  {
  }

  /**
   A pixel of the text has one of its cell's two colours. It is the first where the glyph has ink or,
   with attribute 1, on line 14; with attribute 2 nowhere while the blink phase is off; where the cursor
   is it is the other way round; and with attribute 8 the other way round once more. Attribute 4 has no
   effect.
   */
  lemma PixelOfCell(
    font: Scanlines, s: Screen, pal: Palette, beam: Beam, row: nat, col: nat, l: nat, k: nat)
    requires row < ROWS && col < COLS && l < 16 && k < 8
    ensures var cell := s[row][col];
      var drawn := HasInk(font, cell.ch, l, k) || (HasBit(cell.attr, 1) && l == 14);
      var seen := drawn && (HasBit(cell.attr, 2) ==> beam.phaseOn);
      var first := (seen != UnderCursor(beam, row, col, l)) != HasBit(cell.attr, 8);
      CellPixelAt(font, s, pal, beam, row, col, l, k) == if first then pal[cell.fg] else pal[cell.bg]
  {
    var cell := s[row][col];
    var x, y := 8 * col + k, 40 + 16 * row + l;
    assert (y - 40) / 16 == row && (y - 40) % 16 == l && x / 8 == col && x % 8 == k;
    AttributeBits(cell.attr);
    BitOfAll(k);
    BitOfComplement(font[l * 256 + cell.ch], k);
    BitOfComplement(255, k);
    BitOfComplement(0, k);
    hide Bit, HasBit, Inverse, Blinking, Underlined;
  }

  /** Above and below the text the picture is black. */
  lemma BorderIsBlack(font: Scanlines, s: Screen, pal: Palette, beam: Beam, x: nat, y: int)
    requires x < 640 && !(40 <= y < 440)
    ensures PixelAt(font, s, pal, beam, x, y) == 0
  {
  }

  /** `s` with another cell in one place. */
  function With(s: Screen, row: nat, col: nat, cell: Cell): Screen
    requires row < ROWS && col < COLS
  {
    s[row := s[row][col := cell]]
  }

  lemma EightMore(attr: byte)
    requires !HasBit(attr, 8)
    ensures attr + 8 < 256 && HasBit(attr + 8, 8)
    ensures HasBit(attr + 8, 1) == HasBit(attr, 1) && HasBit(attr + 8, 2) == HasBit(attr, 2)
  {
    assert (attr + 8) / 8 == attr / 8 + 1 && (attr + 8) / 2 == attr / 2 + 4;
  }

  /** Inverse video is the two colours exchanged, under the cursor and everywhere else. */
  lemma InverseExchanges(
    font: Scanlines, s: Screen, pal: Palette, beam: Beam, row: nat, col: nat, l: nat, k: nat, cell: Cell)
    requires row < ROWS && col < COLS && l < 16 && k < 8 && !HasBit(cell.attr, 8)
    ensures cell.attr + 8 < 256
    ensures CellPixelAt(font, With(s, row, col, cell.(attr := cell.attr + 8)), pal, beam, row, col, l, k) ==
      CellPixelAt(font, With(s, row, col, cell.(fg := cell.bg, bg := cell.fg)), pal, beam, row, col, l, k)
  {
    EightMore(cell.attr);
    hide HasBit, CellPixelAt;
    var inverse := cell.(attr := cell.attr + 8);
    PixelOfCell(font, With(s, row, col, inverse), pal, beam, row, col, l, k);
    PixelOfCell(font, With(s, row, col, cell.(fg := cell.bg, bg := cell.fg)), pal, beam, row, col, l, k);
  }

  /** A blinking cell, while the phase is off, looks like a blank one in its colours. */
  lemma BlinkHides(
    font: Scanlines, s: Screen, pal: Palette, beam: Beam, row: nat, col: nat, l: nat, k: nat, cell: Cell)
    requires row < ROWS && col < COLS && l < 16 && k < 8
    requires HasBit(cell.attr, 2) && !HasBit(cell.attr, 8) && !beam.phaseOn
    ensures CellPixelAt(font, With(s, row, col, cell), pal, beam, row, col, l, k) == pal[cell.bg]
  {
    PixelOfCell(font, With(s, row, col, cell), pal, beam, row, col, l, k);
    hide HasBit, CellPixelAt;
  }
}
