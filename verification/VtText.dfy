/** What text, the cursor controls and the escapes do, from the bytes to the cells and the cursor. */
module VtText {
  import opened Words
  import opened Grid
  import opened Vt
  import opened VtSafety
  import opened VtCommands
  import opened VtSettings

  // ---- Lines ----

  /**
   The cursor goes to column `col2` of a row, where column -1 is the end of the row above. Past an end of the
   region it stops there, and the region's rows move as far as it was short.
   */
  ghost predicate WrapsTo(t: Term, r: Term, row2: int, col2: int) {
    if row2 == t.row && col2 == t.col then NothingDone(t, r)
    else Arrives(t, r, if col2 < 0 then row2 - 1 else row2, if col2 < 0 then 79 else col2)
  }

  ghost predicate Arrives(t: Term, r: Term, row: int, col: int) {
    && r == t.(parser := r.parser, row := r.row, col := col, eol := false, screen := r.screen)
    && (if t.top <= t.bottom then IsNearest(r.row, row, t.top, t.bottom) else r.row == t.bottom)
    && forall y: nat :: y < ROWS ==>
         r.screen[y] == if t.top <= t.bottom then AfterShift(t, t.top, t.bottom, row - r.row, y) else t.screen[y]
  }

  lemma Wrapping(t: Term, row2: int, col2: int)
    requires Safe(t) && -1 <= row2 <= ROWS && -1 <= col2 < COLS
    ensures WrapsTo(t, MoveWrap(t, row2, col2), row2, col2)
  {
    if row2 != t.row || col2 != t.col {
      var row, col := if col2 < 0 then row2 - 1 else row2, if col2 < 0 then 79 else col2;
      assert MoveWrap(t, row2, col2) == Settle(t, row, col);
      Settling(t, row, col);
    }
  }

  lemma Settling(t: Term, row: int, col: int)
    requires Safe(t) && -2 <= row <= ROWS && 0 <= col < COLS
    ensures Arrives(t, Settle(t, row, col), row, col)
  {
  }

  // ---- Characters ----

  /** Which ways a line-drawing glyph runs: up, right, down and left. */
  datatype Arms = Arms(up: bool, right: bool, down: bool, left: bool)

  /** The box-drawing codes of the VT100's special graphics set. */
  function Drawn(c: byte): Arms {
    match c
    case 106 /* j, lower right corner */ => Arms(true, false, false, true)
    case 107 /* k, upper right corner */ => Arms(false, false, true, true)
    case 108 /* l, upper left corner */ => Arms(false, true, true, false)
    case 109 /* m, lower left corner */ => Arms(true, true, false, false)
    case 110 /* n, crossing */ => Arms(true, true, true, true)
    case 113 /* q, horizontal */ => Arms(false, true, false, true)
    case 116 /* t, left tee */ => Arms(true, true, true, false)
    case 117 /* u, right tee */ => Arms(true, false, true, true)
    case 118 /* v, bottom tee */ => Arms(true, true, false, true)
    case 119 /* w, top tee */ => Arms(false, true, true, true)
    case 120 /* x, vertical */ => Arms(true, false, true, false)
    case _ => Arms(false, false, false, false)
  }

  /** Those of code page 437. */
  function DrawnIn437(code: byte): Arms {
    match code
    case 0xB3 => Arms(true, false, true, false)
    case 0xB4 => Arms(true, false, true, true)
    case 0xBF => Arms(false, false, true, true)
    case 0xC0 => Arms(true, true, false, false)
    case 0xC1 => Arms(true, true, false, true)
    case 0xC2 => Arms(false, true, true, true)
    case 0xC3 => Arms(true, true, true, false)
    case 0xC4 => Arms(false, true, false, true)
    case 0xC5 => Arms(true, true, true, true)
    case 0xD9 => Arms(true, false, false, true)
    case 0xDA => Arms(false, true, true, false)
    case _ => Arms(false, false, false, false)
  }

  /** The code that shows a character of a set: another only for the pound sign and the special graphics. */
  predicate Shows(g: Charset, c: byte, code: byte) {
    match g
    case US => code == c
    case UK => code == if c == 35 then 0x9C else c
    case Graphics =>
      if 96 <= c <= 126 then
        && DrawnIn437(code) == Drawn(c)
        && (c == 97 ==> code == 0xB1) && (c == 102 ==> code == 0xF8) && (c == 103 ==> code == 0xF1)
        && (c == 121 ==> code == 0xF3) && (c == 122 ==> code == 0xF2) && (c == 123 ==> code == 0xE3)
        && (c == 125 ==> code == 0x9C) && (c == 126 ==> code == 0xFA)
      else code == c
  }

  lemma GlyphShows(g: Charset, c: byte)
    ensures Shows(g, c, Glyph(g, c))
  {
  }

  /** A character printed with no wrap pending: one cell changes, or one comes in, and the cursor goes on. */
  ghost predicate Prints(t: Term, r: Term, c: byte) {
    && r == t.(parser := r.parser, col := r.col, eol := r.eol, screen := r.screen)
    && (if t.col < 79 then r.col == t.col + 1 && !r.eol else r.col == 79 && r.eol == t.modes.autoWrap)
    && forall y: nat, x: nat :: y < ROWS && x < COLS ==> HoldsAfter(t, c, y, x, r.screen[y][x])
  }

  predicate HoldsAfter(t: Term, c: byte, y: nat, x: nat, cell: Cell)
    requires y < ROWS && x < COLS
  {
    if y == t.row && x == t.col then
      && cell.fg == t.pen.fg && cell.bg == t.pen.bg && cell.attr == t.pen.attr
      && Shows(if t.useG1 then t.g1 else t.g0, c, cell.ch)
    else if t.modes.insert && y == t.row && x > t.col && x > 0 then cell == t.screen[y][x - 1]
    else cell == t.screen[y][x]
  }

  lemma Drawing(t: Term, c: byte)
    requires OnScreen(t.row, t.col)
    ensures forall y: nat, x: nat :: y < ROWS && x < COLS ==> HoldsAfter(t, c, y, x, DrawChar(t, c).screen[y][x])
    ensures DrawChar(t, c) == t.(screen := DrawChar(t, c).screen)
  {
    hide Glyph, Shows;
    GlyphShows(CurrentSet(t), c);
  }

  lemma Printing(t: Term, c: byte)
    requires OnScreen(t.row, t.col) && !t.eol
    ensures Prints(t, PrintChar(t, c), c)
  {
    hide DrawChar, HoldsAfter;
    Drawing(t, c);
  }

  /** And with one pending, after going on to the next line. */
  ghost predicate PrintsOn(t: Term, r: Term, c: byte) {
    if t.eol then exists mid: Term :: WrapsTo(t, mid, t.row + 1, 0) && Prints(mid, r, c) else Prints(t, r, c)
  }

  lemma PrintingOn(t: Term, c: byte)
    requires Safe(t)
    ensures PrintsOn(t, PrintChar(t, c), c)
  {
    hide WrapsTo, Prints, DrawChar, MoveWrap, InitCursor;
    if t.eol {
      var mid := MoveWrap(t, t.row + 1, 0);
      Wrapping(t, t.row + 1, 0);
      MoveWrapSafe(t, t.row + 1, 0);
      assert !mid.eol by { NotPending(t, mid); }
      assert mid.(eol := false) == mid;
      assert PrintChar(t, c) == PrintChar(mid, c);
      Printing(mid, c);
    } else {
      Printing(t, c);
    }
  }

  lemma NotPending(t: Term, mid: Term)
    requires WrapsTo(t, mid, t.row + 1, 0)
    ensures !mid.eol
  {
  }

  // ---- Bytes of text ----

  /** A tab goes to the next stop, or to the last column. */
  predicate Tabs(t: Term, r: Term) {
    if t.top <= t.row <= t.bottom then
      && OnlyMoved(t, r, true) && r.row == t.row && 0 <= r.col <= 79
      && (if t.col == 79 then r.col == 79 else t.col < r.col && (r.col == 79 || t.tabs[r.col]))
      && forall k: nat :: t.col < k < r.col ==> !t.tabs[k]
    else NothingDone(t, r)
  }

  /** A backspace goes to the end of the row above from the start of any but the first row it may be in. */
  ghost predicate GoesBack(t: Term, r: Term) {
    if t.row > (if t.modes.origin then t.top else 0) then WrapsTo(t, r, t.row, t.col - 1)
    else Limited(t, r, t.row, t.col - 1)
  }

  /** What a byte of text does. */
  ghost predicate Types(t: Term, r: Term, c: byte) {
    match c
    case 8 => GoesBack(t, r)
    case 9 => Tabs(t, r)
    case 10 => WrapsTo(t, r, t.row + 1, t.col)
    case 11 => WrapsTo(t, r, t.row + 1, t.col)
    case 12 => WrapsTo(t, r, t.row + 1, t.col)
    case 13 => WrapsTo(t, r, t.row, 0)
    case 14 => r == t.(parser := r.parser, useG1 := true)
    case 15 => r == t.(parser := r.parser, useG1 := false)
    case _ => if c >= 32 && c != 127 then PrintsOn(t, r, c) else NothingDone(t, r)
  }

  lemma Tabbing(t: Term)
    requires Safe(t)
    ensures Tabs(t, MoveLimited(t, t.row, NextTab(t.tabs, t.col + 1)))
  {
  }

  lemma TextTypes(t: Term, c: byte)
    requires Safe(t)
    ensures Types(t, ProcessText(t, c), c)
  {
    hide WrapsTo, PrintsOn, Limited, Tabs, MoveLimited, MoveWrap, PrintChar, NextTab;
    match c
    case 8 => Wrapping(t, t.row, t.col - 1); LimitedMove(t, t.row, t.col - 1);
    case 9 => Tabbing(t);
    case 10 => Wrapping(t, t.row + 1, t.col);
    case 11 => Wrapping(t, t.row + 1, t.col);
    case 12 => Wrapping(t, t.row + 1, t.col);
    case 13 => Wrapping(t, t.row, 0);
    case 14 =>
    case 15 =>
    case 127 =>
    case _ => PrintingOn(t, c);
  }

  /** Outside any escape, every byte but ESC is text, in either mode. */
  lemma TextByte(t: Term, i: Input)
    requires Safe(t) && t.parser.state == Normal && i.c != 27
    ensures Types(t, FeedAll(t, [i]), i.c)
  {
    hide Types, ProcessText;
    FeedAllOne(t, i);
    TextTypes(t, i.c);
  }

  // ---- Escapes ----

  /** ESC and one more byte, to a terminal in VT102 mode that is ready for it. */
  predicate IsEscape(t: Term, c: byte, input: seq<Input>) {
    Safe(t) && !t.modes.vt52 && t.parser.state == Normal && |input| == 2 && input[0].c == 27 && input[1].c == c
  }

  /** HTS sets the stop at the cursor. */
  predicate TabSet(t: Term, r: Term) {
    && r == t.(parser := r.parser, tabs := r.tabs)
    && forall k :: 0 <= k < 255 ==> r.tabs[k] == (t.tabs[k] || k == t.col)
  }

  /** What an escape does; those that erase take their parameter from a null pointer. */
  ghost predicate Escapes(t: Term, r: Term, c: byte, stray: byte) {
    match c
    case 55 /* 7 */ => Saves(t, r)
    case 56 /* 8 */ => Restores(t, r)
    case 68 /* D */ => WrapsTo(t, r, t.row + 1, t.col)
    case 69 /* E */ => WrapsTo(t, r, t.row + 1, 0)
    case 72 /* H */ => TabSet(t, r)
    case 73 /* I */ => WrapsTo(t, r, t.row - 1, 0)
    case 74 /* J */ => ErasesScreen(t, r, stray)
    case 75 /* K */ => ErasesLine(t, r, stray)
    case 77 /* M */ => WrapsTo(t, r, t.row - 1, t.col)
    case 99 /* c */ => AsNew(t, r, false)
    case _ => NothingDone(t, r)
  }

  lemma EscapeMoves(t: Term, c: byte, stray: byte)
    requires Safe(t) && c in {68, 69, 73, 77}
    ensures Escapes(t, ExecuteEscape(t, c, stray), c, stray)
  {
    hide WrapsTo, MoveWrap;
    match c
    case 68 => Wrapping(t, t.row + 1, t.col);
    case 69 => Wrapping(t, t.row + 1, 0);
    case 73 => Wrapping(t, t.row - 1, 0);
    case 77 => Wrapping(t, t.row - 1, t.col);
  }

  lemma EscapeErases(t: Term, c: byte, stray: byte)
    requires Safe(t) && c in {74, 75}
    ensures Escapes(t, ExecuteEscape(t, c, stray), c, stray)
  {
    hide ErasesScreen, ErasesLine, EraseScreen, EraseLine;
    if c == 74 {
      ErasingScreen(t, stray);
    } else {
      ErasingLine(t, stray);
    }
  }

  lemma EscapeRestores(t: Term)
    requires Safe(t)
    ensures Restores(t, Restore(t)) && Saves(t, Save(t))
  {
  }

  lemma EscapeDoes(t: Term, c: byte, stray: byte)
    requires Safe(t) && c != 27
    ensures Escapes(t, ExecuteEscape(t, c, stray), c, stray)
  {
    if c in {68, 69, 73, 77} {
      EscapeMoves(t, c, stray);
    } else if c in {74, 75} {
      EscapeErases(t, c, stray);
    } else if c in {55, 56} {
      hide Restores, Saves, Restore, Save;
      EscapeRestores(t);
    } else if c == 99 {
      hide AsNew, Reset;
      Resetting(t);
    }
  }

  /** Two bytes, one after the other. */
  lemma FeedTwo(t: Term, input: seq<Input>)
    requires Safe(t) && |input| == 2
    ensures Safe(Feed(t, input[0].c, input[0].stray))
    ensures FeedAll(t, input) == Feed(Feed(t, input[0].c, input[0].stray), input[1].c, input[1].stray)
  {
    hide Feed, Safe;
    FeedAllAppend(t, [input[0]], [input[1]]);
    FeedAllOne(t, input[0]);
    FeedAllOne(FeedAll(t, [input[0]]), input[1]);
    assert input == [input[0]] + [input[1]];
  }

  /** The escapes from their bytes: all but those that open something longer, and the controls that work inside. */
  lemma EscapeBytes(t: Term, c: byte, input: seq<Input>)
    requires IsEscape(t, c, input) && c >= 44 && c != 91 /* [ */
    ensures Escapes(t, FeedAll(t, input), c, input[1].stray)
  {
    hide Escapes, ExecuteEscape, FeedAll;
    FeedTwo(t, input);
    var u := t.(parser := t.parser.(state := Normal));
    EscapeDoes(u, c, input[1].stray);
    SameEscape(t, u, ExecuteEscape(u, c, input[1].stray), c, input[1].stray);
  }

  lemma SameEscape(t: Term, u: Term, r: Term, c: byte, stray: byte)
    requires u == t.(parser := u.parser) && Escapes(u, r, c, stray)
    ensures Escapes(t, r, c, stray)
  {
    hide WrapsTo, ErasesScreen, ErasesLine, AsNew;
    if c in {68, 69, 73, 77} {
      SameWrap(t, u, r, if c < 73 then t.row + 1 else t.row - 1, if c in {68, 77} then t.col else 0);
    } else {
      SameRest(t, u, r, stray);
    }
  }

  lemma SameRest(t: Term, u: Term, r: Term, arg: byte)
    requires u == t.(parser := u.parser)
    ensures ErasesLine(u, r, arg) <==> ErasesLine(t, r, arg)
    ensures ErasesScreen(u, r, arg) <==> ErasesScreen(t, r, arg)
    ensures AsNew(u, r, false) <==> AsNew(t, r, false)
  {
  }

  lemma SameWrap(t: Term, u: Term, r: Term, row2: int, col2: int)
    requires u == t.(parser := u.parser)
    ensures WrapsTo(u, r, row2, col2) <==> WrapsTo(t, r, row2, col2)
  {
    hide Arrives;
    SameArrival(t, u, r, if col2 < 0 then row2 - 1 else row2, if col2 < 0 then 79 else col2);
  }

  lemma SameArrival(t: Term, u: Term, r: Term, row: int, col: int)
    requires u == t.(parser := u.parser)
    ensures Arrives(u, r, row, col) <==> Arrives(t, r, row, col)
  {
    var n := row - r.row;
    assert forall y: nat :: y < ROWS ==>
      AfterShift(u, t.top, t.bottom, n, y) == AfterShift(t, t.top, t.bottom, n, y);
    hide AfterShift;
  }

  // ---- Escapes of three bytes ----

  predicate IsLongEscape(t: Term, mid: byte, c: byte, input: seq<Input>) {
    && Safe(t) && !t.modes.vt52 && t.parser.state == Normal && |input| == 3
    && input[0].c == 27 && input[1].c == mid && input[2].c == c && c >= 14
  }

  /** The characters chosen: `A` for the British set, `0` and `2` for the graphics, any other for ASCII. */
  predicate Chooses(c: byte, g: Charset) {
    match g
    case UK => c == 65
    case Graphics => c == 48 || c == 50
    case US => c != 65 && c != 48 && c != 50
  }

  /** DECALN fills the rows it may with the letter E and moves nothing. */
  ghost predicate Aligns(t: Term, r: Term) {
    && OnlyDrawn(t, r)
    && forall y: nat, x: nat :: y < ROWS && x < COLS ==>
         r.screen[y][x] ==
           if t.modes.origin && !(t.top <= y <= t.bottom) then t.screen[y][x] else Cell(69, t.pen.fg, t.pen.bg, 0)
  }

  /** What `ESC (`, `ESC )` and `ESC #` do with the byte that follows. */
  ghost predicate EscapesLong(t: Term, r: Term, mid: byte, c: byte) {
    match mid
    case 40 /* ( */ => r == t.(parser := r.parser, g0 := r.g0) && Chooses(c, r.g0)
    case 41 /* ) */ => r == t.(parser := r.parser, g1 := r.g1) && Chooses(c, r.g1)
    case _ => if c == 56 /* 8 */ then Aligns(t, r) else NothingDone(t, r)
  }

  lemma LastByte(t: Term, q: Parser, mid: byte, c: byte, stray: byte)
    requires Safe(t) && !t.modes.vt52 && c >= 14
    requires if mid == 35 then q.state == Hash else q.state == ReadChar && q.start == mid && mid in {40, 41}
    ensures EscapesLong(t, Feed(t.(parser := q), c, stray), mid, c)
  {
  }

  lemma LongEscapeBytes(t: Term, mid: byte, c: byte, input: seq<Input>)
    requires IsLongEscape(t, mid, c, input) && mid in {35 /* # */, 40 /* ( */, 41 /* ) */}
    ensures EscapesLong(t, FeedAll(t, input), mid, c)
  {
    hide FeedAll;
    var u := FeedAll(t, input[..2]);
    FeedTwo(t, input[..2]);
    assert u == t.(parser := u.parser);
    hide Feed, Safe, EscapesLong;
    FeedAllAppend(t, input[..2], input[2..]);
    FeedAllOne(u, input[2]);
    assert input == input[..2] + input[2..] && input[2..] == [input[2]];
    LastByte(t, u.parser, mid, c, input[2].stray);
  }

  // ---- Sequences that print or go by tabs ----

  /** CHT goes to the next stop, whatever its count. */
  lemma TabForwardSequence(t: Term, question: bool, args: seq<byte>, terse: bool, input: seq<Input>)
    requires IsSent(t, question, args, terse, 73 /* I */, input)
    ensures Tabs(t, FeedAll(t, input))
  {
    var u, start, p, stray := Carried(t, question, args, terse, 73, CHT, input);
    hide FeedAll, FinalOf, IsSent, MoveLimited, NextTab;
    Tabbing(u);
  }

  /** Back to the stop before, or to the first column. */
  predicate TabsBack(t: Term, r: Term) {
    if t.top <= t.row <= t.bottom then
      && OnlyMoved(t, r, true) && r.row == t.row && 0 <= r.col <= 79
      && (if t.col == 0 then r.col == 0 else r.col < t.col && (r.col == 0 || t.tabs[r.col]))
      && forall k: nat :: r.col < k < t.col <= 79 ==> !t.tabs[k]
    else NothingDone(t, r)
  }

  lemma TabbingBack(t: Term)
    requires Safe(t)
    ensures TabsBack(t, MoveLimited(t, t.row, PrevTab(t.tabs, t.col - 1)))
  {
  }

  /** And CBT to the one before. */
  lemma TabBackSequence(t: Term, question: bool, args: seq<byte>, terse: bool, input: seq<Input>)
    requires IsSent(t, question, args, terse, 90 /* Z */, input)
    ensures TabsBack(t, FeedAll(t, input))
  {
    var u, start, p, stray := Carried(t, question, args, terse, 90, CBT, input);
    hide FeedAll, FinalOf, IsSent, MoveLimited, PrevTab;
    TabbingBack(u);
  }

  /** After SGR, what is printed next is in the colours and with the attributes it asked for. */
  lemma PrintedAsRendered(t: Term, question: bool, args: seq<byte>, terse: bool, input: seq<Input>, i: Input)
    requires IsSent(t, question, args, terse, 109 /* m */, input) && !t.eol && 32 <= i.c != 127
    ensures var cell := FeedAll(t, input + [i]).screen[t.row][t.col];
      && Renders(t.pen, args, Pen(cell.fg, cell.bg, cell.attr))
      && Shows(if t.useG1 then t.g1 else t.g0, i.c, cell.ch)
  {
    hide FeedAll, Renders, Shows;
    var u := FeedAll(t, input);
    assert u.parser.state == Normal by { Ready(t, question, args, terse, input); }
    RenditionSequence(t, question, args, terse, input);
    FeedAllAppend(t, input, [i]);
    TextByte(u, i);
    assert HoldsAfter(u, i.c, t.row, t.col, FeedAll(u, [i]).screen[t.row][t.col]);
  }

  lemma Ready(t: Term, question: bool, args: seq<byte>, terse: bool, input: seq<Input>)
    requires IsSent(t, question, args, terse, 109, input)
    ensures FeedAll(t, input).parser.state == Normal
  {
    var u, start, p, stray := Carried(t, question, args, terse, 109, SGR, input);
    hide FinalOf, FeedAll;
  }

  /** `ESC [ 3 n m` makes the next character colour `n`, `ESC [ 4 n m` what is behind it, and neither the other. */
  lemma ColouredLetter(t: Term, code: byte, input: seq<Input>, i: Input)
    requires IsSent(t, false, [code], false, 109 /* m */, input) && !t.eol && 32 <= i.c != 127
    ensures var cell := FeedAll(t, input + [i]).screen[t.row][t.col];
      && (30 <= code < 38 ==> cell.fg == code - 30 && cell.bg == t.pen.bg)
      && (40 <= code < 48 ==> cell.bg == code - 40 && cell.fg == t.pen.fg)
  {
    PrintedAsRendered(t, false, [code], false, input, i);
    var cell := FeedAll(t, input + [i]).screen[t.row][t.col];
    hide FeedAll, IsSent;
    var mid: Pen :| Sets(t.pen, [code][0], mid) && Renders(mid, [code][1..], Pen(cell.fg, cell.bg, cell.attr));
    assert [code][1..] == [];
  }
}
