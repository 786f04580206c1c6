/** One font sheet, unpacked twice: by the firmware (term/font.c) and by the decoder (tools/fontgen.py). */
module Font {
  import opened Words

  datatype Option<T> = None | Some(value: T)

  type Sheet = s: seq<byte> | |s| == 4096 witness seq(4096, _ => 0)

  const GLYPHS := 256
  const FONT_HEIGHT := 16

  /** The row of the sheet, counted from the bottom, that holds row `r` of glyph `c`. */
  function Flipped(bpr: int, height: int, c: int, r: int): int
    requires bpr > 0
  {
    c / bpr * height + r
  }

  /**
   * Row `r` of glyph `c` in a sheet stored bottom-up, `bpr` glyphs to a band of `height` pixel
   * rows: the byte that lies there.
   */
  function SheetIndex(rows: int, bpr: int, height: int, c: int, r: int): int
    requires bpr > 0
  {
    (rows - 1 - Flipped(bpr, height, c, r)) * bpr + c % bpr
  }

  // ---- The firmware's layout ----

  /** Where `font_init` puts the byte of flipped row `f`, column `c`. */
  function Slot(f: int, c: int): int {
    f % 16 * 256 + (f / 16 * 64 + c)
  }

  predicate OnSheet(f: int, c: int) {
    0 <= f < 64 && 0 <= c < 64
  }

  lemma SlotInRange(f: int, c: int)
    requires OnSheet(f, c)
    ensures 0 <= Slot(f, c) < 4096
  {
  }

  /** The slot tells the place on the sheet. */
  lemma SlotDigits(f: int, c: int)
    requires OnSheet(f, c)
    ensures var i := Slot(f, c);
      i / 256 == f % 16 && i % 256 == f / 16 * 64 + c
  {
  }

  /** No slot is written twice. */
  lemma SlotOnce(f: int, c: int, g: int, d: int)
    requires OnSheet(f, c) && OnSheet(g, d)
    ensures Slot(f, c) == Slot(g, d) <==> f == g && c == d
  {
    SlotDigits(f, c);
    SlotDigits(g, d);
  }

  /** And every slot is written. */
  lemma SlotSomewhere(i: int)
    requires 0 <= i < 4096
    ensures var f, c := i % 256 / 64 * 16 + i / 256, i % 64;
      OnSheet(f, c) && Slot(f, c) == i
  {
    var q, r := i % 256 / 64, i / 256;
    assert (q * 16 + r) % 16 == r && (q * 16 + r) / 16 == q;
  }

  lemma SlotOfGlyph(c: int, r: int)
    requires 0 <= c < 256 && 0 <= r < 16
    ensures var f := c / 64 * 16 + r;
      OnSheet(f, c % 64) && Slot(f, c % 64) == r * 256 + c && (63 - f) * 64 + c % 64 == SheetIndex(64, 64, 16, c, r)
  {
  }

  lemma SheetIndexInRange(c: int, r: int)
    requires 0 <= c < 256 && 0 <= r < 16
    ensures 0 <= SheetIndex(64, 64, 16, c, r) < 4096
  {
  }

  /** A scanline-major font is the sheet: row `r` of glyph `c` is at `r * 256 + c`. */
  ghost predicate IsScanlines(font: seq<byte>, sheet: Sheet) {
    && |font| == 4096
    && (forall c, r | 0 <= c < 256 && 0 <= r < 16 ::
         SheetIndexInRange(c, r); font[r * 256 + c] == sheet[SheetIndex(64, 64, 16, c, r)])
  }

  /** Row `f`, column `c` of the flipped sheet has been put into its slot. */
  ghost predicate Placed(font: seq<byte>, sheet: Sheet, f: int, c: int)
    requires |font| == 4096 && OnSheet(f, c)
  {
    SlotInRange(f, c);
    font[Slot(f, c)] == sheet[(63 - f) * 64 + c]
  }

  /** One more byte in its slot leaves the others in theirs. */
  lemma PlaceOneMore(was: seq<byte>, now: seq<byte>, sheet: Sheet, f: int, c: int)
    requires |was| == 4096 && OnSheet(f, c) && 0 <= Slot(f, c) < 4096
    requires now == was[Slot(f, c) := sheet[(63 - f) * 64 + c]]
    ensures forall g, d :: OnSheet(g, d) && ((g == f && d == c) || Placed(was, sheet, g, d)) ==>
      Placed(now, sheet, g, d)
  {
    hide Slot;
    forall g, d | OnSheet(g, d) && ((g == f && d == c) || Placed(was, sheet, g, d))
      ensures Placed(now, sheet, g, d)
    {
      SlotInRange(g, d);
      SlotOnce(f, c, g, d);
    }
  }

  lemma AllPlaced(font: seq<byte>, sheet: Sheet)
    requires |font| == 4096 && forall f, c :: OnSheet(f, c) ==> Placed(font, sheet, f, c)
    ensures IsScanlines(font, sheet)
  {
    forall c, r | 0 <= c < 256 && 0 <= r < 16
      ensures 0 <= SheetIndex(64, 64, 16, c, r) < 4096
      ensures font[r * 256 + c] == sheet[SheetIndex(64, 64, 16, c, r)]
    {
      SheetIndexInRange(c, r);
      SlotOfGlyph(c, r);
      assert Placed(font, sheet, c / 64 * 16 + r, c % 64);
    }
  }

  /** The slot, as the source computes it. */
  lemma SlotComputed(br: int, bc: int)
    requires OnSheet(63 - br, bc)
    ensures 0 <= (64 - br - 1) % 16 * 256 + ((64 - br - 1) / 16 * 64 + bc) == Slot(63 - br, bc) < 4096
  {
    SlotInRange(63 - br, bc);
  }

  /** `font_init`. */
  method FontInit(sheet: Sheet, fontScanline: array<byte>)
    requires fontScanline.Length == 4096
    modifies fontScanline
    ensures IsScanlines(fontScanline[..], sheet)
  {
    hide Slot, Placed, IsScanlines;
    for br := 0 to 64
      invariant forall f, c :: OnSheet(f, c) && 64 - br <= f ==> Placed(fontScanline[..], sheet, f, c)
    {
      for bc := 0 to 64
        invariant forall f, c :: OnSheet(f, c) && (64 - br <= f || (f == 63 - br && c < bc)) ==>
          Placed(fontScanline[..], sheet, f, c)
      {
        var cr := (64 - br - 1) % 16;
        var cn := (64 - br - 1) / 16 * 64 + bc;
        SlotComputed(br, bc);
        ghost var was := fontScanline[..];
        fontScanline[cr * 256 + cn] := sheet[br * 64 + bc];
        PlaceOneMore(was, fontScanline[..], sheet, 63 - br, bc);
      }
    }
    AllPlaced(fontScanline[..], sheet);
  }

  // ---- The decoder's layout ----

  /** 256 glyphs of `height` rows each. */
  ghost predicate IsGlyphs(glyphs: seq<seq<byte>>, height: int) {
    |glyphs| == GLYPHS && forall c :: 0 <= c < GLYPHS ==> |glyphs[c]| == height
  }

  /** A sheet of `n` bytes, cut into rows of `bpr` and bands of `height`, holds exactly 256 glyphs. */
  predicate Fits(n: nat, bpr: int, height: int)
    requires 0 < bpr && 0 < height
  {
    n % bpr == 0 && n / bpr % height == 0 && n / bpr / height * bpr == GLYPHS
  }

  lemma BandOfGlyph(bands: nat, bpr: nat, c: nat)
    requires 0 < bpr && c < bands * bpr
    ensures c / bpr < bands
  {
    var q := c / bpr;
    assert c == q * bpr + c % bpr;
    if q >= bands {
      TimesMonotone(bands, q, bpr);
    }
  }

  /** The flipped row of a glyph's row, and back. */
  lemma FlippedRow(height: nat, q: nat, r: nat, f: nat)
    requires 0 < height && r < height
    ensures q * height + r == f <==> q == f / height && r == f % height
  {
    DivModUnique(q, r, height);
  }

  lemma SheetIndexFits(n: nat, bpr: nat, height: nat, c: nat, r: nat)
    requires 0 < bpr && 0 < height && Fits(n, bpr, height) && c < GLYPHS && r < height
    ensures var f := Flipped(bpr, height, c, r);
      0 <= f < n / bpr && 0 <= SheetIndex(n / bpr, bpr, height, c, r) < n
  {
    var rows := n / bpr;
    var bands := rows / height;
    BandOfGlyph(bands, bpr, c);
    assert rows == bands * height;
    PlaceInRange(bands, height, c / bpr, r);
    assert n == rows * bpr;
    PlaceInRange(rows, bpr, rows - 1 - Flipped(bpr, height, c, r), c % bpr);
  }

  /** Glyph `c`, row `r` has been filled in from its place on the sheet. */
  ghost predicate Filled(glyphs: seq<seq<byte>>, data: seq<byte>, bpr: int, height: int, c: int, r: int)
    requires 0 < bpr && 0 < height && IsGlyphs(glyphs, height)
    requires 0 <= c < GLYPHS && 0 <= r < height
  {
    var k := SheetIndex(|data| / bpr, bpr, height, c, r);
    0 <= k < |data| && glyphs[c][r] == data[k]
  }

  /** The glyph that column `bc` of flipped row `f` belongs to. */
  lemma GlyphInRange(rows: nat, height: nat, bpr: nat, f: nat, bc: nat)
    requires 0 < height && 0 < bpr && rows % height == 0 && rows / height * bpr == GLYPHS
    requires f < rows && bc < bpr
    ensures 0 <= f / height * bpr + bc < GLYPHS
    ensures (f / height * bpr + bc) / bpr == f / height && (f / height * bpr + bc) % bpr == bc
    ensures f / height * height + f % height == f
    ensures 0 <= (rows - 1 - f) * bpr + bc < rows * bpr
  {
    BandInRange(rows, height, f);
    GlyphOfBand(rows / height, bpr, f / height, bc);
    PlaceInRange(rows, bpr, rows - 1 - f, bc);
  }

  lemma BandInRange(rows: nat, height: nat, f: nat)
    requires 0 < height && rows % height == 0 && f < rows
    ensures 0 <= f / height < rows / height && f / height * height + f % height == f
  {
    assert rows == rows / height * height;
    BandOfGlyph(rows / height, height, f);
  }

  lemma GlyphOfBand(bands: nat, bpr: nat, band: nat, bc: nat)
    requires bands * bpr == GLYPHS && band < bands && bc < bpr
    ensures 0 <= band * bpr + bc < GLYPHS
    ensures (band * bpr + bc) / bpr == band && (band * bpr + bc) % bpr == bc
  {
    PlaceInRange(bands, bpr, band, bc);
    DivModUnique(band, bc, bpr);
  }

  /** The inner loop: one row of the sheet, dealt out to the glyphs from `base` on. */
  method UnpackRow(was: seq<seq<byte>>, row: seq<byte>, base: nat, height: nat, cr: nat)
    returns (glyphs: seq<seq<byte>>)
    requires IsGlyphs(was, height) && base + |row| <= GLYPHS && cr < height
    ensures IsGlyphs(glyphs, height)
    ensures forall c :: base <= c < base + |row| ==> glyphs[c] == was[c][cr := row[c - base]]
    ensures forall c :: 0 <= c < GLYPHS && !(base <= c < base + |row|) ==> glyphs[c] == was[c]
  {
    glyphs := was;
    for bc := 0 to |row|
      invariant IsGlyphs(glyphs, height)
      invariant forall c :: base <= c < base + bc ==> glyphs[c] == was[c][cr := row[c - base]]
      invariant forall c :: 0 <= c < GLYPHS && !(base <= c < base + bc) ==> glyphs[c] == was[c]
    {
      glyphs := glyphs[base + bc := glyphs[base + bc][cr := row[bc]]];
    }
  }

  /** Where glyph `c`, row `r` comes from: a later row of the sheet, or this one. */
  lemma RowIsMine(rows: nat, bpr: nat, height: nat, f: nat, c: nat, r: nat)
    requires 0 < height && 0 < bpr && rows % height == 0 && rows / height * bpr == GLYPHS
    requires f < rows && c < GLYPHS && r < height
    ensures Flipped(bpr, height, c, r) == f <==>
      f / height * bpr <= c < f / height * bpr + bpr && r == f % height
    ensures Flipped(bpr, height, c, r) == f ==>
      c - f / height * bpr == c % bpr && SheetIndex(rows, bpr, height, c, r) == (rows - 1 - f) * bpr + c % bpr
  {
    FlippedRow(height, c / bpr, r, f);
    var q := f / height;
    if q * bpr <= c < q * bpr + bpr {
      DivModUnique(q, c - q * bpr, bpr);
    }
  }

  /** `_unpack`: nothing if the sheet is not 256 glyphs of that shape, else every row of every glyph. */
  method Unpack(data: seq<byte>, bpr: int, height: int) returns (result: Option<seq<seq<byte>>>)
    requires 0 < bpr && 0 < height
    ensures result.Some? <==> Fits(|data|, bpr, height)
    ensures result.Some? ==> IsGlyphs(result.value, height) && AllFilled(result.value, data, bpr, height, 0)
  {
    hide AllFilled;
    if |data| % bpr != 0 {
      return None;
    }
    var rows := |data| / bpr;
    if rows % height != 0 {
      return None;
    }
    if rows / height * bpr != GLYPHS {
      return None;
    }
    var glyphs: seq<seq<byte>> := seq(GLYPHS, _ => seq(height, _ => 0));
    NothingToFill(glyphs, data, bpr, height);
    for br := 0 to rows
      invariant IsGlyphs(glyphs, height)
      invariant AllFilled(glyphs, data, bpr, height, rows - br)
    {
      var flipped := rows - br - 1;
      GlyphInRange(rows, height, bpr, flipped, 0);
      GlyphInRange(rows, height, bpr, flipped, bpr - 1);
      TimesSuccessor(br, bpr);
      ghost var was := glyphs;
      glyphs := UnpackRow(glyphs, data[br * bpr..br * bpr + bpr], flipped / height * bpr, height, flipped % height);
      RowFilled(was, glyphs, data, bpr, height, br);
    }
    return Some(glyphs);
  }

  /** Every glyph row whose place is at or above flipped row `from` has been filled in. */
  ghost predicate AllFilled(glyphs: seq<seq<byte>>, data: seq<byte>, bpr: int, height: int, from: int)
    requires 0 < bpr && 0 < height && IsGlyphs(glyphs, height)
  {
    forall c, r :: 0 <= c < GLYPHS && 0 <= r < height && Flipped(bpr, height, c, r) >= from ==>
      Filled(glyphs, data, bpr, height, c, r)
  }

  lemma NothingToFill(glyphs: seq<seq<byte>>, data: seq<byte>, bpr: nat, height: nat)
    requires 0 < bpr && 0 < height && IsGlyphs(glyphs, height) && Fits(|data|, bpr, height)
    ensures AllFilled(glyphs, data, bpr, height, |data| / bpr)
  {
    hide Fits;
    forall c, r | 0 <= c < GLYPHS && 0 <= r < height ensures Flipped(bpr, height, c, r) < |data| / bpr {
      SheetIndexFits(|data|, bpr, height, c, r);
    }
  }

  lemma RowFilled(
    was: seq<seq<byte>>, glyphs: seq<seq<byte>>, data: seq<byte>, bpr: nat, height: nat, br: nat)
    requires 0 < bpr && 0 < height && Fits(|data|, bpr, height) && br < |data| / bpr
    requires IsGlyphs(was, height) && IsGlyphs(glyphs, height)
    requires AllFilled(was, data, bpr, height, |data| / bpr - br)
    requires br * bpr + bpr <= |data|
    requires var f := |data| / bpr - br - 1;
      var base := f / height * bpr;
      && (forall c :: 0 <= c < GLYPHS && base <= c < base + bpr ==>
            0 <= br * bpr + c - base < |data| && glyphs[c] == was[c][f % height := data[br * bpr + c - base]])
      && (forall c :: 0 <= c < GLYPHS && !(base <= c < base + bpr) ==> glyphs[c] == was[c])
    ensures AllFilled(glyphs, data, bpr, height, |data| / bpr - br - 1)
  {
    var rows := |data| / bpr;
    var f := rows - br - 1;
    forall c, r | 0 <= c < GLYPHS && 0 <= r < height && Flipped(bpr, height, c, r) >= f
      ensures Filled(glyphs, data, bpr, height, c, r)
    {
      RowIsMine(rows, bpr, height, f, c, r);
      if Flipped(bpr, height, c, r) != f {
        assert Filled(was, data, bpr, height, c, r);
      }
    }
  }

  /** The two unpackings of any sheet are the same font. */
  lemma UnpackersAgree(sheet: Sheet, font: seq<byte>, glyphs: seq<seq<byte>>, c: int, r: int)
    requires IsScanlines(font, sheet)
    requires IsGlyphs(glyphs, 16) && AllFilled(glyphs, sheet, 64, 16, 0)
    requires 0 <= c < 256 && 0 <= r < 16
    ensures font[r * 256 + c] == glyphs[c][r]
  {
    assert Filled(glyphs, sheet, 64, 16, c, r);
  }
}
