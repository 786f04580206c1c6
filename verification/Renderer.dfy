/** Cells to pixels, one scanline at a time (term/textmode_render.c). */
module Renderer {
  import opened Words
  import opened Grid

  type u16 = w: int | 0 <= w < 0x1_0000

  const WIDTH := 640
  const HEIGHT := 480
  const TEXT_YOFFSET := 40
  const TEXT_ACTIVE_H := 400
  const FONT_UNDERLINE := 14

  type Scanlines = s: seq<byte> | |s| == 4096 witness seq(4096, _ => 0)
  type Palette = p: seq<u16> | |p| == 256 witness seq(256, _ => 0)

  /** The blink phase and the hardware cursor, as they stand when a line is drawn. */
  datatype Beam = Beam(phaseOn: bool, visible: bool, col: byte, row: byte, beg: byte, end: byte)

  /** Bit `x` of a byte, counted from the left. */
  predicate Bit(b: byte, x: int)
    requires 0 <= x < 8
  {
    match x
    case 0 => b / 128 == 1
    case 1 => b / 64 % 2 == 1
    case 2 => b / 32 % 2 == 1
    case 3 => b / 16 % 2 == 1
    case 4 => b / 8 % 2 == 1
    case 5 => b / 4 % 2 == 1
    case 6 => b / 2 % 2 == 1
    case 7 => b % 2 == 1
  }

  /** `attr & 8`, `& 4`, `& 2`, `& 1`. */
  predicate Inverse(attr: byte) {
    Bit(attr, 4)
  }

  predicate Blinking(attr: byte) {
    Bit(attr, 6)
  }

  predicate Underlined(attr: byte) {
    Bit(attr, 7)
  }

  predicate CursorAt(beam: Beam, col: int, row: int, subline: int) {
    beam.visible && beam.phaseOn && row == beam.row && col == beam.col && beam.beg <= subline <= beam.end
  }

  // ---- What a pixel should be ----

  /** The eight pixels of one cell on one line, before they have colours. */
  function Pattern(font: Scanlines, cell: Cell, beam: Beam, col: int, row: int, subline: int): byte
    requires 0 <= subline < 16
  {
    var g := font[subline * 256 + cell.ch];
    var g1 := if Underlined(cell.attr) && subline == FONT_UNDERLINE then 255 else g;
    var g2 := if Blinking(cell.attr) && !beam.phaseOn then 0 else g1;
    if CursorAt(beam, col, row, subline) then 255 - g2 else g2
  }

  function Foreground(pal: Palette, cell: Cell): u16 {
    if Inverse(cell.attr) then pal[cell.bg] else pal[cell.fg]
  }

  function Background(pal: Palette, cell: Cell): u16 {
    if Inverse(cell.attr) then pal[cell.fg] else pal[cell.bg]
  }

  /** The pixel in column `x` of the picture's line `y`. */
  function PixelAt(font: Scanlines, s: Screen, pal: Palette, beam: Beam, x: int, y: int): u16
    requires 0 <= x < WIDTH
  {
    if !(TEXT_YOFFSET <= y < TEXT_YOFFSET + TEXT_ACTIVE_H) then 0
    else
      var row, subline, col := (y - 40) / 16, (y - 40) % 16, x / 8;
      var cell := s[row][col];
      if Bit(Pattern(font, cell, beam, col, row, subline), x % 8)
      then Foreground(pal, cell) else Background(pal, cell)
  }

  // ---- Two pixels to a word ----

  /** The pixel in column `x` of a line buffer: the even one is the low half. */
  function Pixel(words: seq<u32>, x: int): u16
    requires 0 <= x < 2 * |words|
  {
    if x % 2 == 0 then words[x / 2] % 0x1_0000 else words[x / 2] / 0x1_0000
  }

  function Pair(left: u16, right: u16): u32 {
    left + right * 0x1_0000
  }

  function WordAt(font: Scanlines, s: Screen, pal: Palette, beam: Beam, w: int, y: int): u32
    requires 0 <= w < 320
  {
    Pair(PixelAt(font, s, pal, beam, 2 * w, y), PixelAt(font, s, pal, beam, 2 * w + 1, y))
  }

  lemma TwoBits(n: nat)
    ensures n % 4 == n / 2 % 2 * 2 + n % 2
  {
  }

  function Value(bit: bool): nat {
    if bit then 1 else 0
  }

  /** The pair of bits an index into the colour map is made of. */
  lemma IndexBits(g: byte)
    ensures g / 64 == 2 * Value(Bit(g, 0)) + Value(Bit(g, 1))
    ensures g / 16 % 4 == 2 * Value(Bit(g, 2)) + Value(Bit(g, 3))
    ensures g / 4 % 4 == 2 * Value(Bit(g, 4)) + Value(Bit(g, 5))
    ensures g % 4 == 2 * Value(Bit(g, 6)) + Value(Bit(g, 7))
  {
    TwoBits(g / 64);
    TwoBits(g / 16);
    TwoBits(g / 4);
    TwoBits(g);
    assert g / 64 / 2 == g / 128 && g / 16 / 2 == g / 32 && g / 4 / 2 == g / 8;
  }

  /** The colours of one cell, as the map lists them: by left bit, then right bit. */
  function ColourMap(fg: u16, bg: u16): (m: seq<u32>)
    ensures |m| == 4
  {
    [Pair(bg, bg), Pair(bg, fg), Pair(fg, bg), Pair(fg, fg)]
  }

  lemma CellPixel(font: Scanlines, s: Screen, pal: Palette, beam: Beam, col: int, y: int, g: byte, k: int)
    requires 0 <= col < COLS && TEXT_YOFFSET <= y < TEXT_YOFFSET + TEXT_ACTIVE_H && 0 <= k < 8
    requires g == Pattern(font, s[(y - 40) / 16][col], beam, col, (y - 40) / 16, (y - 40) % 16)
    ensures var cell := s[(y - 40) / 16][col];
      PixelAt(font, s, pal, beam, 8 * col + k, y) == if Bit(g, k) then Foreground(pal, cell) else Background(pal, cell)
  {
    hide Pattern, Bit, Foreground, Background;
    assert (8 * col + k) / 8 == col && (8 * col + k) % 8 == k;
  }

  /** One of the four words of a cell. */
  lemma CellWord(
    font: Scanlines, s: Screen, pal: Palette, beam: Beam, col: int, y: int, g: byte, k: int, index: nat)
    requires 0 <= col < COLS && TEXT_YOFFSET <= y < TEXT_YOFFSET + TEXT_ACTIVE_H && 0 <= k < 4
    requires g == Pattern(font, s[(y - 40) / 16][col], beam, col, (y - 40) / 16, (y - 40) % 16)
    requires index == 2 * Value(Bit(g, 2 * k)) + Value(Bit(g, 2 * k + 1))
    ensures var cell := s[(y - 40) / 16][col];
      ColourMap(Foreground(pal, cell), Background(pal, cell))[index] == WordAt(font, s, pal, beam, 4 * col + k, y)
  {
    hide Pattern, Bit, Foreground, Background, PixelAt;
    CellPixel(font, s, pal, beam, col, y, g, 2 * k);
    CellPixel(font, s, pal, beam, col, y, g, 2 * k + 1);
    assert 2 * (4 * col + k) == 8 * col + 2 * k;
    assert 2 * (4 * col + k) + 1 == 8 * col + (2 * k + 1);
  }

  /** `render_ctext256`: one line of the picture, into the line buffer. */
  method RenderLine(font: Scanlines, s: Screen, pal: Palette, beam: Beam, line: int, dst: array<u32>)
    requires dst.Length == 320
    modifies dst
    ensures forall x :: 0 <= x < WIDTH ==> Pixel(dst[..], x) == PixelAt(font, s, pal, beam, x, line)
  {
    hide Pattern, PixelAt, Bit, ColourMap, WordAt;
    var y := line - TEXT_YOFFSET;
    if !(0 <= y < TEXT_ACTIVE_H) {
      for i := 0 to COLS * 4
        invariant forall w :: 0 <= w < i ==> dst[w] == 0
      {
        dst[i] := 0;
      }
      BorderWords(font, s, pal, beam, line);
      WordsArePixels(font, s, pal, beam, line, dst[..]);
      return;
    }
    var row, subline := y / 16, y % 16;
    for col := 0 to COLS
      invariant forall w :: 0 <= w < 4 * col ==> dst[w] == WordAt(font, s, pal, beam, w, line)
    {
      var cell := s[row][col];
      var g := LineOfCell(font, cell, beam, col, row, subline);
      var fg, bg := pal[cell.fg], pal[cell.bg];
      if Inverse(cell.attr) {
        fg, bg := bg, fg;
      }
      var map2 := ColourMap(fg, bg);
      IndexBits(g);
      CellWord(font, s, pal, beam, col, line, g, 0, g / 64);
      CellWord(font, s, pal, beam, col, line, g, 1, g / 16 % 4);
      CellWord(font, s, pal, beam, col, line, g, 2, g / 4 % 4);
      CellWord(font, s, pal, beam, col, line, g, 3, g % 4);
      dst[4 * col] := map2[g / 64];
      dst[4 * col + 1] := map2[g / 16 % 4];
      dst[4 * col + 2] := map2[g / 4 % 4];
      dst[4 * col + 3] := map2[g % 4];
    }
    WordsArePixels(font, s, pal, beam, line, dst[..]);
  }

  /** The byte of one cell on one line, as the renderer settles it. */
  method LineOfCell(font: Scanlines, cell: Cell, beam: Beam, col: int, row: int, subline: int) returns (g: byte)
    requires 0 <= subline < 16
    ensures g == Pattern(font, cell, beam, col, row, subline)
  {
    hide Bit;
    g := font[subline * 256 + cell.ch];
    if Underlined(cell.attr) && subline == FONT_UNDERLINE {
      g := 255;
    }
    if Blinking(cell.attr) && !beam.phaseOn {
      g := 0;
    }
    if CursorAt(beam, col, row, subline) {
      g := 255 - g;
    }
  }

  lemma BorderWords(font: Scanlines, s: Screen, pal: Palette, beam: Beam, y: int)
    requires !(TEXT_YOFFSET <= y < TEXT_YOFFSET + TEXT_ACTIVE_H)
    ensures forall w :: 0 <= w < 320 ==> WordAt(font, s, pal, beam, w, y) == 0
  {
  }

  lemma WordsArePixels(font: Scanlines, s: Screen, pal: Palette, beam: Beam, y: int, words: seq<u32>)
    requires |words| == 320 && forall w :: 0 <= w < 320 ==> words[w] == WordAt(font, s, pal, beam, w, y)
    ensures forall x :: 0 <= x < WIDTH ==> Pixel(words, x) == PixelAt(font, s, pal, beam, x, y)
  {
    hide PixelAt;
    forall x | 0 <= x < WIDTH ensures Pixel(words, x) == PixelAt(font, s, pal, beam, x, y) {
      assert words[x / 2] == WordAt(font, s, pal, beam, x / 2, y);
      assert x == 2 * (x / 2) + x % 2;
    }
  }
}
