/** A picture of the screen, decoded: the renderer and the decoder undo each other. */
module Screenshot {
  import opened Words
  import opened Grid
  import opened Font
  import opened Renderer
  import opened Decoder

  /** 80x25 cells of 8x16 pixels, 40 lines down. */
  const LAYOUT := Layout(80, 25, 0, 40, 1, 1)

  function Brightness(font: Scanlines, s: Screen, pal: Palette, beam: Beam, luma: u16 -> byte, i: int): byte
    requires 0 <= i < FRAME
  {
    luma(PixelAt(font, s, pal, beam, i % 640, i / 640))
  }

  /** The frame as the capture card delivers it: the brightness of every pixel, line by line. */
  function Capture(font: Scanlines, s: Screen, pal: Palette, beam: Beam, luma: u16 -> byte): (raw: seq<byte>)
    ensures |raw| == FRAME
  {
    seq(FRAME, i requires 0 <= i < FRAME => Brightness(font, s, pal, beam, luma, i))
  }

  /** Both sides have the same font. */
  ghost predicate SameFont(font: Scanlines, f: FontTable) {
    f.height == 16 &&
    forall c, r :: 0 <= c < 256 && 0 <= r < 16 ==> |f.glyphs[c]| == 16 && f.glyphs[c][r] == font[r * 256 + c]
  }

  /** One pair of colours, no attributes. */
  predicate IsPlain(s: Screen, fg: byte, bg: byte) {
    forall r, c :: 0 <= r < ROWS && 0 <= c < COLS ==> s[r][c] == Cell(s[r][c].ch, fg, bg, 0)
  }

  /** The letters are brighter than what is behind them, and that is as dark as the border. */
  predicate IsLegible(pal: Palette, luma: u16 -> byte, fg: byte, bg: byte) {
    luma(pal[fg]) > luma(pal[bg]) == luma(0)
  }

  predicate NoCursor(beam: Beam) {
    !(beam.visible && beam.phaseOn)
  }

  lemma {:induction false} CapturedAt(
    font: Scanlines, s: Screen, pal: Palette, beam: Beam, luma: u16 -> byte,
    x: int, y: int)
    requires 0 <= x < WIDTH && 0 <= y < HEIGHT
    ensures Sample(Capture(font, s, pal, beam, luma), x, y) == luma(PixelAt(font, s, pal, beam, x, y))
  {
    hide PixelAt;
    assert (y * 640 + x) % 640 == x && (y * 640 + x) / 640 == y;
  }

  /** A plain pixel has one of two colours, by the bit of its glyph. */
  lemma {:induction false} PlainPixel(
    font: Scanlines, s: Screen, pal: Palette, beam: Beam,
    fg: byte, bg: byte, x: int, y: int)
    requires IsPlain(s, fg, bg) && NoCursor(beam)
    requires 0 <= x < WIDTH
    ensures var p := PixelAt(font, s, pal, beam, x, y);
      if !(40 <= y < 440) then p == 0
      else p == if Bit(font[(y - 40) % 16 * 256 + s[(y - 40) / 16][x / 8].ch], x % 8) then pal[fg] else pal[bg]
  {
    if 40 <= y < 440 {
      var cell := s[(y - 40) / 16][x / 8];
      assert cell == Cell(cell.ch, fg, bg, 0);
    }
  }

  /** Halfway between the darkest and the brightest, letters lie above and all else below. */
  lemma {:induction false} ThresholdSplits(
    font: Scanlines, s: Screen, pal: Palette, beam: Beam, luma: u16 -> byte,
    fg: byte, bg: byte)
    requires IsPlain(s, fg, bg) && NoCursor(beam) && IsLegible(pal, luma, fg, bg)
    ensures var raw := Capture(font, s, pal, beam, luma);
      forall i :: 0 <= i < FRAME ==> (raw[i] > Threshold(raw) <==> raw[i] == luma(pal[fg]))
  {
    hide PixelAt, MinOf, MaxOf;
    var raw := Capture(font, s, pal, beam, luma);
    var lo, hi := luma(pal[bg]), luma(pal[fg]);
    forall i | 0 <= i < FRAME ensures raw[i] == lo || raw[i] == hi {
      PlainPixel(font, s, pal, beam, fg, bg, i % 640, i / 640);
    }
    PlainPixel(font, s, pal, beam, fg, bg, 0, 0);
    assert raw[0] == lo;
    assert MinOf(raw) == lo;
    assert MaxOf(raw) == lo || MaxOf(raw) == hi;
  }

  /** The bitmap cut out of the frame for a cell is the glyph of the character in it. */
  lemma {:induction false} KeyIsGlyph(
    font: Scanlines, f: FontTable, s: Screen, pal: Palette, beam: Beam, luma: u16 -> byte,
    fg: byte, bg: byte, r: nat, c: nat)
    requires SameFont(font, f) && IsPlain(s, fg, bg) && NoCursor(beam) && IsLegible(pal, luma, fg, bg)
    requires r < ROWS && c < COLS
    ensures KeyAt(f, Capture(font, s, pal, beam, luma), LAYOUT, r, c) == f.glyphs[s[r][c].ch]
  {
    hide Capture, PixelAt, Threshold, Bit;
    var raw := Capture(font, s, pal, beam, luma);
    var glyph := f.glyphs[s[r][c].ch];
    var key := KeyAt(f, raw, LAYOUT, r, c);
    forall gy: nat | gy < 16 ensures key[gy] == glyph[gy] {
      RowIsGlyphRow(font, f, s, pal, beam, luma, fg, bg, r, c, gy);
    }
  }

  /** Where a cell of the screen begins on the frame. */
  lemma CellPlace(f: FontTable, r: nat, c: nat)
    requires f.height == 16 && r < ROWS && c < COLS
    ensures CellX(LAYOUT, c) == 8 * c && CellY(f.height, LAYOUT, r) == 40 + 16 * r
    ensures CellOnFrame(f, 8 * c, 40 + 16 * r, 1, 1)
  {
  }

  /** At scale 1 a sample is a pixel. */
  lemma BrightHere(f: FontTable, raw: seq<byte>, x0: nat, y0: nat, thresh: int, gx: nat, gy: nat)
    requires |raw| == FRAME && CellOnFrame(f, x0, y0, 1, 1) && gx < 8 && gy < f.height
    ensures IsBright(f, raw, x0, y0, 1, 1, thresh, gx, gy) <==> Sample(raw, x0 + gx, y0 + gy) > thresh
  {
  }

  lemma {:induction false} RowIsGlyphRow(
    font: Scanlines, f: FontTable, s: Screen, pal: Palette, beam: Beam, luma: u16 -> byte,
    fg: byte, bg: byte, r: nat, c: nat, gy: nat)
    requires SameFont(font, f) && IsPlain(s, fg, bg) && NoCursor(beam) && IsLegible(pal, luma, fg, bg)
    requires r < ROWS && c < COLS && gy < 16
    ensures KeyAt(f, Capture(font, s, pal, beam, luma), LAYOUT, r, c)[gy] == f.glyphs[s[r][c].ch][gy]
  {
    hide Capture, PixelAt, Threshold, Bit, Key;
    var raw := Capture(font, s, pal, beam, luma);
    var b := f.glyphs[s[r][c].ch][gy];
    assert b == font[gy * 256 + s[r][c].ch];
    CellPlace(f, r, c);
    hide SameFont, CellX, CellY, IsBright;
    forall gx: nat | gx < 8
      ensures IsBright(f, raw, 8 * c, 40 + 16 * r, 1, 1, Threshold(raw), gx, gy) == Bit(b, gx)
    {
      BrightHere(f, raw, 8 * c, 40 + 16 * r, Threshold(raw), gx, gy);
      BrightIsInk(font, s, pal, beam, luma, fg, bg, r, c, gx, gy);
    }
    KeyRow(f, raw, 8 * c, 40 + 16 * r, 1, 1, Threshold(raw), gy, b);
  }

  lemma {:induction false} BrightIsInk(
    font: Scanlines, s: Screen, pal: Palette, beam: Beam, luma: u16 -> byte,
    fg: byte, bg: byte, r: nat, c: nat, gx: nat, gy: nat)
    requires IsPlain(s, fg, bg) && NoCursor(beam) && IsLegible(pal, luma, fg, bg)
    requires r < ROWS && c < COLS && gx < 8 && gy < 16
    ensures var raw := Capture(font, s, pal, beam, luma);
      Sample(raw, 8 * c + gx, 40 + 16 * r + gy) > Threshold(raw) <==> Bit(font[gy * 256 + s[r][c].ch], gx)
  {
    hide Capture, PixelAt, Threshold, Bit;
    var x, y := 8 * c + gx, 40 + 16 * r + gy;
    assert x / 8 == c && x % 8 == gx && (y - 40) / 16 == r && (y - 40) % 16 == gy;
    ThresholdSplits(font, s, pal, beam, luma, fg, bg);
    CapturedAt(font, s, pal, beam, luma, x, y);
    PlainPixel(font, s, pal, beam, fg, bg, x, y);
  }

  /** What a character is read back as: the least code that looks the same, or a blank. */
  function ReadBack(f: FontTable, ch: byte): char {
    if IsBlank(f.glyphs[ch]) then ' ' else CharOf(LeastCode(f, f.glyphs[ch], 0))
  }

  lemma {:induction false} CellReadBack(
    font: Scanlines, f: FontTable, s: Screen, pal: Palette, beam: Beam, luma: u16 -> byte,
    fg: byte, bg: byte, r: nat, c: nat)
    requires SameFont(font, f) && IsPlain(s, fg, bg) && NoCursor(beam) && IsLegible(pal, luma, fg, bg)
    requires r < ROWS && c < COLS
    ensures var raw := Capture(font, s, pal, beam, luma);
      && CellChar(f, raw, LAYOUT, r, c) == ReadBack(f, s[r][c].ch)
      && MatchOf(f, KeyAt(f, raw, LAYOUT, r, c)).1 == 1.0
  {
    hide Capture, Key;
    KeyIsGlyph(font, f, s, pal, beam, luma, fg, bg, r, c);
    assert LeastCode(f, f.glyphs[s[r][c].ch], 0) <= s[r][c].ch;
  }

  predicate AllOnes(s: seq<real>) {
    forall k :: 0 <= k < |s| ==> s[k] == 1.0
  }

  lemma {:induction false} SumOfOnes(s: seq<real>)
    requires AllOnes(s)
    ensures Sum(s) == |s| as real && Mean(s) == 1.0
  {
    if s == [] {
      assert Sum(s) == 0.0;
    } else {
      SumOfOnes(s[..|s| - 1]);
      assert Sum(s) == (|s| - 1) as real + 1.0 == |s| as real;
      assert |s| as real / |s| as real == 1.0;
    }
  }

  lemma {:induction false} LineIsSure(f: FontTable, raw: seq<byte>, r: nat, n: nat)
    requires |raw| == FRAME && OnFrame(f, LAYOUT) && r < ROWS && n <= COLS
    requires forall c: nat :: c < COLS ==> MatchOf(f, KeyAt(f, raw, LAYOUT, r, c)).1 == 1.0
    ensures AllOnes(LineConfidences(f, raw, LAYOUT, r, n))
  {
    hide KeyAt, MatchOf;
    if n == 0 {
      assert LineConfidences(f, raw, LAYOUT, r, n) == [];
    } else {
      LineIsSure(f, raw, r, n - 1);
      var c: nat := n - 1;
      var before, key := LineConfidences(f, raw, LAYOUT, r, c), KeyAt(f, raw, LAYOUT, r, c);
      assert MatchOf(f, key).1 == 1.0;
      assert LineConfidences(f, raw, LAYOUT, r, n) == before + if IsBlank(key) then [] else [MatchOf(f, key).1];
      OnesAppend(before, if IsBlank(key) then [] else [MatchOf(f, key).1]);
    }
  }

  lemma OnesAppend(a: seq<real>, b: seq<real>)
    requires AllOnes(a) && AllOnes(b)
    ensures AllOnes(a + b)
  {
  }

  lemma {:induction false} FrameIsSure(f: FontTable, raw: seq<byte>, n: nat)
    requires |raw| == FRAME && OnFrame(f, LAYOUT) && n <= ROWS
    requires forall r: nat, c: nat :: r < ROWS && c < COLS ==> MatchOf(f, KeyAt(f, raw, LAYOUT, r, c)).1 == 1.0
    ensures AllOnes(Confidences(f, raw, LAYOUT, n))
  {
    hide KeyAt, MatchOf, LineConfidences;
    if n > 0 {
      FrameIsSure(f, raw, n - 1);
      LineIsSure(f, raw, n - 1, COLS);
    }
  }

  /** The line a row of cells is read back as. */
  function LineReadBack(f: FontTable, row: Row): string {
    seq(COLS, c requires 0 <= c < COLS => ReadBack(f, row[c].ch))
  }

  /**
   Rendered and decoded, a plain screen comes back, for any font: every character with ink as
   the least code that looks like it, every other as a blank, and with full confidence.
   */
  lemma {:induction false} RenderThenDecode(
    font: Scanlines, f: FontTable, s: Screen, pal: Palette, beam: Beam, luma: u16 -> byte, fg: byte, bg: byte)
    requires SameFont(font, f) && IsPlain(s, fg, bg) && NoCursor(beam) && IsLegible(pal, luma, fg, bg)
    ensures OnFrame(f, LAYOUT)
    ensures var raw := Capture(font, s, pal, beam, luma);
      && (forall r :: 0 <= r < ROWS ==> TextOf(f, raw, LAYOUT)[r] == RStrip(LineReadBack(f, s[r])))
      && Mean(Confidences(f, raw, LAYOUT, ROWS)) == 1.0
  {
    hide Capture, KeyAt, MatchOf, CellChar, ReadBack, RStrip;
    var raw := Capture(font, s, pal, beam, luma);
    forall r: nat, c: nat | r < ROWS && c < COLS
      ensures CellChar(f, raw, LAYOUT, r, c) == ReadBack(f, s[r][c].ch)
      ensures MatchOf(f, KeyAt(f, raw, LAYOUT, r, c)).1 == 1.0
    {
      CellReadBack(font, f, s, pal, beam, luma, fg, bg, r, c);
    }
    forall r | 0 <= r < ROWS ensures TextOf(f, raw, LAYOUT)[r] == RStrip(LineReadBack(f, s[r])) {
      assert LineOf(f, raw, LAYOUT, r) == LineReadBack(f, s[r]);
    }
    FrameIsSure(f, raw, ROWS);
    SumOfOnes(Confidences(f, raw, LAYOUT, ROWS));
  }

  /** A printable code that looks like itself: the blank for a space, else ink no lower code has. */
  predicate IsDistinct(f: FontTable, ch: byte) {
    && 32 <= ch < 127
    && (ch == 32 <==> IsBlank(f.glyphs[ch]))
    && (ch != 32 ==> forall c :: 0 <= c < ch ==> f.glyphs[c] != f.glyphs[ch])
  }

  /** A row of the screen as text. */
  function Written(row: Row): string
  {
    seq(COLS, c requires 0 <= c < COLS => row[c].ch as char)
  }

  /** Text in such characters comes back exactly, up to blanks at the end of a line. */
  lemma TextComesBack(f: FontTable, row: Row)
    requires forall c :: 0 <= c < COLS ==> IsDistinct(f, row[c].ch)
    ensures LineReadBack(f, row) == Written(row)
  {
    forall c | 0 <= c < COLS ensures ReadBack(f, row[c].ch) == row[c].ch as char {
      var ch := row[c].ch;
      assert IsDistinct(f, ch);
      if ch != 32 {
        assert LeastCode(f, f.glyphs[ch], 0) == ch;
      }
    }
  }
}
