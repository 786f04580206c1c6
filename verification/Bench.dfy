/**
 What the bench relies on: text that Linux writes to its console can be read back
 from a picture of the screen. The console path, the terminal, the renderer and the
 decoder, each proved by itself, put together.
 */
module Bench {
  import opened Words
  import opened Grid
  import opened Font
  import opened Renderer
  import opened Decoder
  import opened Screenshot
  import opened Vt
  import opened VtSafety
  import opened Paper
  import ControlSequences
  import PipelineInv
  import Tty
  import TtyMachine

  /** Every cell is written in the default colours, in characters that look like themselves. */
  ghost predicate RowReadable(f: FontTable, row: Row) {
    forall c :: 0 <= c < COLS ==> row[c] == Cell(row[c].ch, 7, 0, 0) && IsDistinct(f, row[c].ch)
  }

  ghost predicate PageReadable(f: FontTable, p: Page) {
    forall r :: 0 <= r < |p.rows| ==> RowReadable(f, p.rows[r])
  }

  ghost predicate TextReadable(f: FontTable, input: seq<Input>) {
    && IsDistinct(f, 32)
    && (forall k :: 0 <= k < |input| ==> IsTyped(input[k].c) && (input[k].c >= 32 ==> IsDistinct(f, input[k].c)))
  }

  lemma TypeReadable(f: FontTable, p: Page, c: byte)
    requires PageOk(p) && PageReadable(f, p) && IsTyped(c)
    requires IsDistinct(f, 32) && (c >= 32 ==> IsDistinct(f, c))
    ensures PageReadable(f, Type(p, c))
  {
    hide IsDistinct;
    assert RowReadable(f, FRESH);
  }

  lemma {:induction false} TypeAllReadable(f: FontTable, p: Page, input: seq<Input>)
    requires PageOk(p) && PageReadable(f, p) && TextReadable(f, input)
    ensures PageReadable(f, TypeAll(p, input))
    decreases |input|
  {
    if input != [] {
      TypeReadable(f, p, input[0].c);
      TypeAllReadable(f, Type(p, input[0].c), input[1..]);
    }
  }

  lemma WindowReadable(f: FontTable, p: Page)
    requires PageOk(p) && PageReadable(f, p) && IsDistinct(f, 32)
    ensures IsPlain(Window(p), 7, 0)
    ensures forall r :: 0 <= r < ROWS ==> LineReadBack(f, Window(p)[r]) == Written(Window(p)[r])
  {
    hide IsDistinct, LineReadBack;
    assert RowReadable(f, FRESH);
    forall r | 0 <= r < ROWS
      ensures RowReadable(f, Window(p)[r]) && LineReadBack(f, Window(p)[r]) == Written(Window(p)[r])
    {
      assert Window(p)[r] == ShownRow(p, r);
      TextComesBack(f, Window(p)[r]);
    }
  }

  /** Typed on a terminal that shows a page, and photographed, text is read back as the page has it. */
  lemma {:induction false} TypedTextIsReadBack(
    t: Term, p: Page, font: Scanlines, f: FontTable, pal: Palette, beam: Beam, luma: u16 -> byte, input: seq<Input>)
    requires Safe(t) && Untouched(t) && PageOk(p) && Shows(t, p) && PageReadable(f, p)
    requires SameFont(font, f) && NoCursor(beam) && IsLegible(pal, luma, 7, 0) && TextReadable(f, input)
    ensures OnFrame(f, LAYOUT)
    ensures var raw := Capture(font, FeedAll(t, input).screen, pal, beam, luma);
      && (forall r :: 0 <= r < ROWS ==>
            TextOf(f, raw, LAYOUT)[r] == RStrip(Written(Window(TypeAll(p, input))[r])))
      && Mean(Confidences(f, raw, LAYOUT, ROWS)) == 1.0
  {
    hide IsPlain, IsDistinct, TextOf, Confidences, Capture, LineReadBack, Written, Window;
    TypingShows(t, p, input);
    TypeAllReadable(f, p, input);
    var page := TypeAll(p, input);
    WindowReadable(f, page);
    RenderThenDecode(font, f, Window(page), pal, beam, luma, 7, 0);
  }

  /** The two unpackings of the font sheet make the renderer and the decoder agree. */
  lemma SheetIsSameFont(sheet: Sheet, font: Scanlines, f: FontTable)
    requires IsScanlines(font, sheet)
    requires f.height == 16 && AllFilled(f.glyphs, sheet, 64, 16, 0)
    ensures SameFont(font, f)
  {
    forall c, r | 0 <= c < 256 && 0 <= r < 16 ensures |f.glyphs[c]| == 16 && f.glyphs[c][r] == font[r * 256 + c] {
      UnpackersAgree(sheet, font, f.glyphs, c, r);
    }
  }

  /**
   From end to end. In every run of the console in which no fill for the USB console alone leaves
   bytes behind, no wait of core 1 runs out, none of the master for a payload, and no payload is taken for a
   header, the picture of the screen is read back as the last rows of what Linux has written, as far
   as it has got, below whatever the page held before.
   */
  lemma {:induction false} LinuxTextIsReadBack(
    s: TtyMachine.State, run: seq<TtyMachine.Action>, t: Term, p: Page,
    sheet: Sheet, font: Scanlines, f: FontTable, pal: Palette, beam: Beam, luma: u16 -> byte, input: seq<Input>)
    requires TtyMachine.Init(s) && TtyMachine.Legal(s, run) && Tty.NoneBehind(s, run)
    requires var link := TtyMachine.Run(s, run).link; PipelineInv.Calm(link) && !link.faults.payload
    requires Safe(t) && Untouched(t) && PageOk(p) && Shows(t, p) && PageReadable(f, p)
    requires ControlSequences.Bytes(input) == TtyMachine.Run(s, run).link.console.screen
    requires IsScanlines(font, sheet) && f.height == 16 && AllFilled(f.glyphs, sheet, 64, 16, 0)
    requires NoCursor(beam) && IsLegible(pal, luma, 7, 0) && TextReadable(f, input)
    ensures ControlSequences.Bytes(input) <= TtyMachine.Run(s, run).ring.written
    ensures OnFrame(f, LAYOUT)
    ensures var raw := Capture(font, FeedAll(t, input).screen, pal, beam, luma);
      && (forall r :: 0 <= r < ROWS ==>
            TextOf(f, raw, LAYOUT)[r] == RStrip(Written(Window(TypeAll(p, input))[r])))
      && Mean(Confidences(f, raw, LAYOUT, ROWS)) == 1.0
  {
    hide SameFont, IsScanlines, TextOf, Confidences, Capture, Window, Written, TextReadable, Shows;
    hide TtyMachine.Init, TtyMachine.Legal, TtyMachine.Run, Tty.NoneBehind;
    Tty.TerminalShowsWhatLinuxWrote(s, run);
    SheetIsSameFont(sheet, font, f);
    TypedTextIsReadBack(t, p, font, f, pal, beam, luma, input);
  }
}
