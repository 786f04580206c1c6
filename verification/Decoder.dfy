/** Pixels back to text (tools/screen.py). */
module Decoder {
  import opened Words
  import opened Renderer
  import opened Font

  const FRAME := 307200

  /** 256 glyphs, `height` rows of eight pixels each. */
  datatype FontData = FontData(glyphs: seq<seq<byte>>, height: nat)

  ghost predicate FontOk(f: FontData) {
    f.height > 0 && IsGlyphs(f.glyphs, f.height)
  }

  type FontTable = f: FontData | FontOk(f) ghost witness FontData(seq(GLYPHS, _ => [0]), 1)

  // ---- Bits ----

  /** The byte whose bits, from the left, are `v`. */
  function FromBits(v: seq<bool>): byte
    requires |v| == 8
  {
    128 * Value(v[0]) + 64 * Value(v[1]) + 32 * Value(v[2]) + 16 * Value(v[3]) +
    8 * Value(v[4]) + 4 * Value(v[5]) + 2 * Value(v[6]) + Value(v[7])
  }

  function BitsOf(b: byte): (v: seq<bool>)
    ensures |v| == 8
  {
    seq(8, k requires 0 <= k < 8 => Bit(b, k))
  }

  lemma Nibble(n: nat)
    requires n < 16
    ensures n == 8 * Value(n / 8 == 1) + 4 * Value(n / 4 % 2 == 1) + 2 * Value(n / 2 % 2 == 1) + Value(n % 2 == 1)
  {
  }

  lemma HighBits(b: byte)
    ensures b / 16 == 8 * Value(Bit(b, 0)) + 4 * Value(Bit(b, 1)) + 2 * Value(Bit(b, 2)) + Value(Bit(b, 3))
  {
    assert b / 16 / 8 == b / 128 && b / 16 / 4 == b / 64 && b / 16 / 2 == b / 32;
    Nibble(b / 16);
  }

  lemma LowBits(b: byte)
    ensures b % 16 == 8 * Value(Bit(b, 4)) + 4 * Value(Bit(b, 5)) + 2 * Value(Bit(b, 6)) + Value(Bit(b, 7))
  {
    var q, n := b / 16, b % 16;
    assert b == 16 * q + n;
    assert b / 8 == 2 * q + n / 8 && b / 4 == 4 * q + n / 4 && b / 2 == 8 * q + n / 2;
    Nibble(n);
  }

  lemma BitSum(b: byte)
    ensures b == 128 * Value(Bit(b, 0)) + 64 * Value(Bit(b, 1)) + 32 * Value(Bit(b, 2)) + 16 * Value(Bit(b, 3)) +
      8 * Value(Bit(b, 4)) + 4 * Value(Bit(b, 5)) + 2 * Value(Bit(b, 6)) + Value(Bit(b, 7))
  {
    hide Bit, Value;
    HighBits(b);
    LowBits(b);
  }

  lemma FromBitsOf(b: byte)
    ensures FromBits(BitsOf(b)) == b
  {
    hide Bit;
    BitSum(b);
  }

  /** A byte is its bits. */
  lemma SameBits(a: byte, b: byte)
    requires forall k :: 0 <= k < 8 ==> Bit(a, k) == Bit(b, k)
    ensures a == b
  {
    hide Bit;
    BitSum(a);
    BitSum(b);
  }

  /** How many of its eight pixels two rows have in common. */
  function Alike(a: byte, b: byte): (n: nat) {
    Value(Bit(a, 0) == Bit(b, 0)) + Value(Bit(a, 1) == Bit(b, 1)) +
    Value(Bit(a, 2) == Bit(b, 2)) + Value(Bit(a, 3) == Bit(b, 3)) +
    Value(Bit(a, 4) == Bit(b, 4)) + Value(Bit(a, 5) == Bit(b, 5)) +
    Value(Bit(a, 6) == Bit(b, 6)) + Value(Bit(a, 7) == Bit(b, 7))
  }

  /** All eight, exactly when they are the same. */
  lemma AlikeAll(a: byte, b: byte)
    ensures Alike(a, b) <= 8
    ensures Alike(a, b) == 8 <==> a == b
  {
    hide Bit;
    if Alike(a, b) == 8 {
      SameBits(a, b);
    }
  }

  // ---- Matching a cell ----

  /** The pixels two bitmaps have in common. */
  function Score(key: seq<byte>, glyph: seq<byte>): (n: nat)
    requires |key| == |glyph|
    ensures n <= 8 * |key|
    ensures n == 8 * |key| <==> key == glyph
  {
    if key == [] then 0
    else
      var last := |key| - 1;
      AlikeAll(key[last], glyph[last]);
      assert key == key[..last] + [key[last]] && glyph == glyph[..last] + [glyph[last]];
      Score(key[..last], glyph[..last]) + Alike(key[last], glyph[last])
  }

  /** The least code, of `from` and up, with this bitmap; 256 if there is none. */
  function LeastCode(f: FontTable, key: seq<byte>, from: nat): (code: nat)
    requires from <= GLYPHS
    ensures from <= code <= GLYPHS
    ensures code < GLYPHS ==> f.glyphs[code] == key
    ensures forall c :: from <= c < code ==> f.glyphs[c] != key
    decreases GLYPHS - from
  {
    if from == GLYPHS || f.glyphs[from] == key then from else LeastCode(f, key, from + 1)
  }

  /** Among the first `n` codes, the least of those with the most pixels in common. */
  function Nearest(f: FontTable, key: seq<byte>, n: nat): (code: nat)
    requires 1 <= n <= GLYPHS && |key| == f.height
    ensures code < n
    ensures forall c :: 0 <= c < n ==> Score(key, f.glyphs[c]) <= Score(key, f.glyphs[code])
    ensures forall c :: 0 <= c < code ==> Score(key, f.glyphs[c]) < Score(key, f.glyphs[code])
  {
    if n == 1 then 0
    else
      var best := Nearest(f, key, n - 1);
      if Score(key, f.glyphs[n - 1]) > Score(key, f.glyphs[best]) then n - 1 else best
  }

  /** What a bitmap is taken for, and how sure that is. */
  function MatchOf(f: FontTable, key: seq<byte>): (r: (nat, real))
    requires |key| == f.height
  {
    var exact := LeastCode(f, key, 0);
    if exact < GLYPHS then (exact, 1.0)
    else
      var best := Nearest(f, key, GLYPHS);
      (best, Score(key, f.glyphs[best]) as real / (8 * f.height) as real)
  }

  lemma Fraction(part: nat, whole: nat)
    requires part < whole
    ensures 0.0 <= part as real / whole as real < 1.0
  {
  }

  /** Full confidence means a bitmap of the font, and nothing else does. */
  lemma SureOnlyIfExact(f: FontTable, key: seq<byte>)
    requires |key| == f.height
    ensures var (code, conf) := MatchOf(f, key);
      && code < GLYPHS
      && 0.0 <= conf <= 1.0
      && (conf == 1.0 <==> f.glyphs[code] == key)
      && (forall c :: 0 <= c < code ==> f.glyphs[c] != key)
  {
    if LeastCode(f, key, 0) == GLYPHS {
      var best := Nearest(f, key, GLYPHS);
      Fraction(Score(key, f.glyphs[best]), 8 * f.height);
    }
  }

  function CharOf(code: nat): char {
    if 32 <= code < 127 then code as char else if code == 0xDB then '\U{2588}' else '\U{B7}'
  }

  // ---- A frame ----

  /** A grid of cells of `sx` by `sy` screen pixels to the font pixel, at an offset. */
  datatype Layout = Layout(cols: nat, rows: nat, xOff: nat, yOff: nat, sx: nat, sy: nat)

  /** The grid fits, and no cell of it starts outside the frame. */
  predicate OnFrame(f: FontData, g: Layout) {
    && g.xOff + g.cols * (g.sx * 8) <= WIDTH && g.yOff + g.rows * (g.sy * f.height) <= HEIGHT
    && (g.cols > 0 && g.rows > 0 ==> g.xOff < WIDTH && g.yOff < HEIGHT)
  }

  function Sample(raw: seq<byte>, x: int, y: int): byte
    requires |raw| == FRAME && 0 <= x < WIDTH && 0 <= y < HEIGHT
  {
    raw[y * 640 + x]
  }

  /** Font pixel `gx` of row `gy` of a cell lies on the frame. */
  predicate CellOnFrame(f: FontData, x0: nat, y0: nat, sx: nat, sy: nat) {
    x0 + 8 * sx <= WIDTH && y0 + f.height * sy <= HEIGHT && x0 < WIDTH && y0 < HEIGHT
  }

  lemma SampleOnFrame(f: FontData, x0: nat, y0: nat, sx: nat, sy: nat, gx: nat, gy: nat)
    requires CellOnFrame(f, x0, y0, sx, sy) && gx < 8 && gy < f.height
    ensures 0 <= x0 + gx * sx < WIDTH && 0 <= y0 + gy * sy < HEIGHT
  {
    TimesSuccessor(gx, sx);
    TimesMonotone(gx + 1, 8, sx);
    TimesSuccessor(gy, sy);
    TimesMonotone(gy + 1, f.height, sy);
  }

  predicate IsBright(f: FontTable, raw: seq<byte>, x0: nat, y0: nat, sx: nat, sy: nat, thresh: int, gx: nat, gy: nat)
    requires |raw| == FRAME && CellOnFrame(f, x0, y0, sx, sy) && gx < 8 && gy < f.height
  {
    SampleOnFrame(f, x0, y0, sx, sy, gx, gy);
    Sample(raw, x0 + gx * sx, y0 + gy * sy) > thresh
  }

  /** Where in the frame the pixel lies. */
  lemma BrightAt(f: FontTable, raw: seq<byte>, x0: nat, y0: nat, sx: nat, sy: nat, thresh: int, gx: nat, gy: nat)
    requires |raw| == FRAME && CellOnFrame(f, x0, y0, sx, sy) && gx < 8 && gy < f.height
    ensures var i := (y0 + gy * sy) * WIDTH + x0 + gx * sx;
      0 <= i < |raw| && (IsBright(f, raw, x0, y0, sx, sy, thresh, gx, gy) <==> raw[i] > thresh)
  {
    SampleOnFrame(f, x0, y0, sx, sy, gx, gy);
  }

  /** One screen cell as a bitmap of the font's resolution. */
  function Key(f: FontTable, raw: seq<byte>, x0: nat, y0: nat, sx: nat, sy: nat, thresh: int): (key: seq<byte>)
    requires |raw| == FRAME && CellOnFrame(f, x0, y0, sx, sy)
    ensures |key| == f.height
  {
    seq(f.height, gy requires 0 <= gy < f.height =>
      FromBits(seq(8, gx requires 0 <= gx < 8 => IsBright(f, raw, x0, y0, sx, sy, thresh, gx, gy))))
  }

  /** A row of the bitmap is the byte whose bits are the bright pixels. */
  lemma KeyRow(
    f: FontTable, raw: seq<byte>, x0: nat, y0: nat, sx: nat, sy: nat, thresh: int, gy: nat, b: byte)
    requires |raw| == FRAME && CellOnFrame(f, x0, y0, sx, sy) && gy < f.height
    requires forall gx: nat :: gx < 8 ==> IsBright(f, raw, x0, y0, sx, sy, thresh, gx, gy) == Bit(b, gx)
    ensures Key(f, raw, x0, y0, sx, sy, thresh)[gy] == b
  {
    hide Bit, IsBright;
    assert BitsOf(b) == seq(8, gx requires 0 <= gx < 8 => IsBright(f, raw, x0, y0, sx, sy, thresh, gx, gy));
    FromBitsOf(b);
  }

  /** The darkest byte. */
  function MinOf(raw: seq<byte>): (m: byte)
    requires raw != []
    ensures m in raw && forall i :: 0 <= i < |raw| ==> m <= raw[i]
  {
    var last := raw[|raw| - 1];
    if |raw| == 1 then last else Min(MinOf(raw[..|raw| - 1]), last)
  }

  /** The brightest byte. */
  function MaxOf(raw: seq<byte>): (m: byte)
    requires raw != []
    ensures m in raw && forall i :: 0 <= i < |raw| ==> raw[i] <= m
  {
    var last := raw[|raw| - 1];
    if |raw| == 1 then last else Max(MaxOf(raw[..|raw| - 1]), last)
  }

  function Threshold(raw: seq<byte>): int
    requires raw != []
  {
    (MinOf(raw) + MaxOf(raw)) / 2
  }

  predicate IsBlank(key: seq<byte>) {
    forall k :: 0 <= k < |key| ==> key[k] == 0
  }

  /** Where on the frame a cell of the grid begins. */
  function CellX(g: Layout, c: nat): nat {
    g.xOff + c * (g.sx * 8)
  }

  function CellY(height: nat, g: Layout, r: nat): nat {
    g.yOff + r * (g.sy * height)
  }

  lemma GridCellOnFrame(f: FontTable, g: Layout, r: nat, c: nat)
    requires OnFrame(f, g) && r < g.rows && c < g.cols
    ensures CellOnFrame(f, CellX(g, c), CellY(f.height, g, r), g.sx, g.sy)
  {
    var w, h := g.sx * 8, g.sy * f.height;
    TimesSuccessor(c, w);
    TimesMonotone(c + 1, g.cols, w);
    TimesSuccessor(r, h);
    TimesMonotone(r + 1, g.rows, h);
    TimesMonotone(0, c, w);
    TimesMonotone(0, r, h);
    TimesZero(c, w);
    TimesZero(r, h);
  }

  lemma TimesZero(a: nat, d: nat)
    ensures d == 0 ==> a * d == 0
  {
  }

  // ---- What decoding a frame gives ----

  function KeyAt(f: FontTable, raw: seq<byte>, g: Layout, r: nat, c: nat): (key: seq<byte>)
    requires |raw| == FRAME && OnFrame(f, g) && r < g.rows && c < g.cols
    ensures |key| == f.height
  {
    GridCellOnFrame(f, g, r, c);
    Key(f, raw, CellX(g, c), CellY(f.height, g, r), g.sx, g.sy, Threshold(raw))
  }

  function CellChar(f: FontTable, raw: seq<byte>, g: Layout, r: nat, c: nat): char
    requires |raw| == FRAME && OnFrame(f, g) && r < g.rows && c < g.cols
  {
    var key := KeyAt(f, raw, g, r, c);
    if IsBlank(key) then ' ' else CharOf(MatchOf(f, key).0)
  }

  /** Trailing blanks cut off. */
  function RStrip(s: string): (t: string)
    ensures t <= s
    ensures forall k :: |t| <= k < |s| ==> s[k] == ' '
    ensures t != [] ==> t[|t| - 1] != ' '
  {
    if s != [] && s[|s| - 1] == ' ' then RStrip(s[..|s| - 1]) else s
  }

  function LineOf(f: FontTable, raw: seq<byte>, g: Layout, r: nat): (s: string)
    requires |raw| == FRAME && OnFrame(f, g) && r < g.rows
    ensures |s| == g.cols
  {
    seq(g.cols, c requires 0 <= c < g.cols => CellChar(f, raw, g, r, c))
  }

  function TextOf(f: FontTable, raw: seq<byte>, g: Layout): (t: seq<string>)
    requires |raw| == FRAME && OnFrame(f, g)
    ensures |t| == g.rows
  {
    seq(g.rows, r requires 0 <= r < g.rows => RStrip(LineOf(f, raw, g, r)))
  }

  /** The confidences of the first `c` cells of a line that have ink. */
  function LineConfidences(f: FontTable, raw: seq<byte>, g: Layout, r: nat, c: nat): seq<real>
    requires |raw| == FRAME && OnFrame(f, g) && r < g.rows && c <= g.cols
  {
    if c == 0 then []
    else
      var key := KeyAt(f, raw, g, r, c - 1);
      LineConfidences(f, raw, g, r, c - 1) + if IsBlank(key) then [] else [MatchOf(f, key).1]
  }

  lemma NoCells(f: FontTable, raw: seq<byte>, g: Layout, r: nat)
    requires |raw| == FRAME && OnFrame(f, g) && r < g.rows
    ensures LineConfidences(f, raw, g, r, 0) == []
  {
  }

  function Confidences(f: FontTable, raw: seq<byte>, g: Layout, r: nat): seq<real>
    requires |raw| == FRAME && OnFrame(f, g) && r <= g.rows
  {
    if r == 0 then [] else Confidences(f, raw, g, r - 1) + LineConfidences(f, raw, g, r - 1, g.cols)
  }

  function Sum(s: seq<real>): real {
    if s == [] then 0.0 else Sum(s[..|s| - 1]) + s[|s| - 1]
  }

  /** The mean, taken as perfect when there is nothing to average. */
  function Mean(s: seq<real>): real {
    if s == [] then 1.0 else Sum(s) / |s| as real
  }

  // ---- The decoder ----

  predicate IsWholeScale(f: FontData, cellW: nat, cellH: nat)
    requires f.height > 0
  {
    cellW / 8 * 8 == cellW && cellH / f.height * f.height == cellH
  }

  class ScreenDecoder {
    const font: FontTable
    const cellW: nat
    const cellH: nat
    const sx: nat
    const sy: nat
    var exact: map<seq<byte>, nat>

    /** The table holds every bitmap of the font, each with its least code. */
    ghost predicate Valid()
      reads this
    {
      && cellW == sx * 8 && cellH == sy * font.height
      && (forall key :: key in exact ==> exact[key] == LeastCode(font, key, 0) < GLYPHS)
      && (forall code :: 0 <= code < GLYPHS ==> font.glyphs[code] in exact)
    }

    constructor (font: FontTable, cellW: nat, cellH: nat)
      requires IsWholeScale(font, cellW, cellH)
      ensures Valid() && this.font == font && this.cellW == cellW && this.cellH == cellH
    {
      this.font := font;
      this.cellW := cellW;
      this.cellH := cellH;
      sx := cellW / 8;
      sy := cellH / font.height;
      exact := map[];
      new;
      exact := BuildTable(font);
    }

    static method BuildTable(font: FontTable) returns (exact: map<seq<byte>, nat>)
      ensures forall key :: key in exact ==> exact[key] == LeastCode(font, key, 0) < GLYPHS
      ensures forall code :: 0 <= code < GLYPHS ==> font.glyphs[code] in exact
    {
      hide LeastCode;
      exact := map[];
      for code := 0 to GLYPHS
        invariant forall key :: key in exact ==> exact[key] == LeastCode(font, key, 0) < code
        invariant forall c :: 0 <= c < code ==> font.glyphs[c] in exact
      {
        var key := font.glyphs[code];
        if key !in exact {
          assert LeastCode(font, key, 0) == code;
          exact := exact[key := code];
        }
      }
    }

    /** No decoder at all for a cell that is not a whole multiple of the font's. */
    static method Build(font: FontTable, cellW: nat, cellH: nat) returns (d: ScreenDecoder?)
      ensures d == null <==> !IsWholeScale(font, cellW, cellH)
      ensures d != null ==> d.Valid() && d.font == font && d.cellW == cellW && d.cellH == cellH
    {
      if cellW / 8 * 8 != cellW || cellH / font.height * font.height != cellH {
        return null;
      }
      d := new ScreenDecoder(font, cellW, cellH);
    }

    method CellBits(raw: seq<byte>, x0: nat, y0: nat, thresh: int) returns (key: seq<byte>)
      requires |raw| == FRAME && CellOnFrame(font, x0, y0, sx, sy)
      ensures key == Key(font, raw, x0, y0, sx, sy, thresh)
    {
      ghost var whole := Key(font, raw, x0, y0, sx, sy, thresh);
      key := [];
      for gy := 0 to font.height
        invariant key == whole[..gy]
      {
        var bits := RowBits(raw, x0, y0, thresh, gy);
        key := key + [bits];
      }
    }

    /** The inner loop of `cell_bits`. */
    method RowBits(raw: seq<byte>, x0: nat, y0: nat, thresh: int, gy: nat) returns (bits: byte)
      requires |raw| == FRAME && CellOnFrame(font, x0, y0, sx, sy) && gy < font.height
      ensures bits == FromBits(seq(8, gx requires 0 <= gx < 8 => IsBright(font, raw, x0, y0, sx, sy, thresh, gx, gy)))
    {
      ghost var all := seq(8, gx requires 0 <= gx < 8 => IsBright(font, raw, x0, y0, sx, sy, thresh, gx, gy));
      var y := y0 + gy * sy;
      var base := y * WIDTH + x0;
      bits := 0;
      NoneAndAll(all);
      hide FromBits, FirstOf, IsBright, CellOnFrame;
      for gx := 0 to 8
        invariant bits == FromBits(FirstOf(all, gx))
      {
        BrightAt(font, raw, x0, y0, sx, sy, thresh, gx, gy);
        OneMore(all, gx);
        if raw[base + gx * sx] > thresh {
          bits := bits + Mask(gx);
        }
      }
    }

    /** `match`: the table first, the nearest glyph if the table has none. */
    method Match(key: seq<byte>) returns (code: nat, conf: real)
      requires Valid() && |key| == font.height
      ensures (code, conf) == MatchOf(font, key)
    {
      if key in exact {
        return exact[key], 1.0;
      }
      var best: nat := 63;
      var bestScore: int := -1;
      for c := 0 to GLYPHS
        invariant c > 0 ==> best == Nearest(font, key, c) && bestScore == Score(key, font.glyphs[best])
        invariant c == 0 ==> bestScore == -1
      {
        var same := Score(key, font.glyphs[c]);
        if same > bestScore {
          best, bestScore := c, same;
        }
      }
      return best, bestScore as real / (8 * font.height) as real;
    }

    /** One cell: its character, and its confidence if it has ink. */
    method DecodeCell(raw: seq<byte>, ghost g: Layout, x0: nat, y0: nat, thresh: int, ghost r: nat, ghost c: nat)
      returns (ch: char, conf: seq<real>)
      requires Valid() && |raw| == FRAME && OnFrame(font, g) && g.sx == sx && g.sy == sy
      requires r < g.rows && c < g.cols && thresh == Threshold(raw)
      requires x0 == CellX(g, c) && y0 == CellY(font.height, g, r)
      ensures ch == CellChar(font, raw, g, r, c)
      ensures LineConfidences(font, raw, g, r, c + 1) == LineConfidences(font, raw, g, r, c) + conf
    {
      hide Key, MatchOf, Threshold, OnFrame, CellOnFrame, CharOf;
      GridCellOnFrame(font, g, r, c);
      var key := CellBits(raw, x0, y0, thresh);
      assert key == KeyAt(font, raw, g, r, c);
      if IsBlank(key) {
        return ' ', [];
      }
      var code, confidence := Match(key);
      assert (code, confidence) == MatchOf(font, key);
      return CharOf(code), [confidence];
    }

    /** The loop over one line of cells. */
    method DecodeLine(raw: seq<byte>, cols: nat, xOff: nat, y0: nat, thresh: int, ghost g: Layout, ghost r: nat)
      returns (line: string, confidences: seq<real>)
      requires Valid() && |raw| == FRAME && OnFrame(font, g) && g.sx == sx && g.sy == sy
      requires g.cols == cols && g.xOff == xOff && r < g.rows && thresh == Threshold(raw)
      requires y0 == g.yOff + r * (sy * font.height)
      ensures line == LineOf(font, raw, g, r)
      ensures confidences == LineConfidences(font, raw, g, r, cols)
    {
      hide CellChar, OnFrame, Threshold, LineConfidences;
      NoCells(font, raw, g, r);
      ghost var whole := LineOf(font, raw, g, r);
      line, confidences := "", [];
      for c := 0 to cols
        invariant line == whole[..c]
        invariant confidences == LineConfidences(font, raw, g, r, c)
      {
        var ch, conf := DecodeCell(raw, g, xOff + c * cellW, y0, thresh, r, c);
        line := line + [ch];
        confidences := confidences + conf;
      }
    }

    /** `decode`: the text of a frame, line by line, and how sure it is on the whole. */
    method Decode(raw: seq<byte>, cols: nat, rows: nat, xOff: nat, yOff: nat)
      returns (text: seq<string>, confidence: real)
      requires Valid() && |raw| == FRAME && OnFrame(font, Layout(cols, rows, xOff, yOff, sx, sy))
      ensures var g := Layout(cols, rows, xOff, yOff, sx, sy);
        text == TextOf(font, raw, g) && confidence == Mean(Confidences(font, raw, g, rows))
    {
      hide LineOf, LineConfidences, OnFrame, RStrip;
      ghost var g := Layout(cols, rows, xOff, yOff, sx, sy);
      ghost var whole := TextOf(font, raw, g);
      var thresh := (MinOf(raw) + MaxOf(raw)) / 2;
      var confidences: seq<real> := [];
      text := [];
      for r := 0 to rows
        invariant text == whole[..r]
        invariant confidences == Confidences(font, raw, g, r)
      {
        var line, found := DecodeLine(raw, cols, xOff, yOff + r * cellH, thresh, g, r);
        confidences := confidences + found;
        text := text + [RStrip(line)];
      }
      confidence := Mean(confidences);
    }
  }

  /** `0x80 >> gx`. */
  function Mask(gx: nat): byte
    requires gx < 8
  {
    match gx
    case 0 => 128
    case 1 => 64
    case 2 => 32
    case 3 => 16
    case 4 => 8
    case 5 => 4
    case 6 => 2
    case 7 => 1
  }

  /** The first `n` bits, and the rest dark. */
  function FirstOf(v: seq<bool>, n: nat): (w: seq<bool>)
    requires |v| == 8
    ensures |w| == 8
  {
    seq(8, k requires 0 <= k < 8 => k < n && v[k])
  }

  lemma NoneAndAll(v: seq<bool>)
    requires |v| == 8
    ensures FromBits(FirstOf(v, 0)) == 0 && FirstOf(v, 8) == v
  {
  }

  lemma OneMore(v: seq<bool>, n: nat)
    requires |v| == 8 && n < 8
    ensures FromBits(FirstOf(v, n + 1)) == FromBits(FirstOf(v, n)) + if v[n] then Mask(n) else 0
  {
  }
}
