/** The terminal as a value: what each byte does to it (term/terminal.c, VT102 and VT52). */
module Vt {
  import opened Words
  import opened Grid

  // ---- Control sequences ----

  datatype State = Normal | WaitBracket | StartChar | ReadParam | Hash | ReadChar

  type Params = p: seq<byte> | |p| == 16 witness seq(16, _ => 0)

  /** The parser's static variables. */
  datatype Parser = Parser(state: State, start: byte, num: nat, params: Params)

  /** What one byte asks for, once the parser has seen it. */
  datatype Event =
    | Nothing
    | Text(c: byte)
    | Escape(c: byte)
    | Command(start: byte, final: byte, args: seq<byte>, params: Params)
    | HashCommand(c: byte)
    | Designate(slot: byte, c: byte)

  const BS := 8
  const TAB := 9
  const LF := 10
  const VT := 11
  const FF := 12
  const CR := 13
  const SO := 14
  const SI := 15
  const ESC := 27
  const QUESTION := 63
  const SEMICOLON := 59
  const DELETE := 127

  predicate IsDigit(c: byte) {
    48 <= c <= 57
  }

  /** The characters that work inside an escape sequence as they do outside it. */
  predicate IsInner(c: byte) {
    c == BS || c == LF || c == CR
  }

  /** A byte of a control sequence after its bracket. */
  function ParseParam(p: Parser, c: byte): (Parser, Event)
    requires 1 <= p.num <= 16
  {
    if IsDigit(c) then
      (p.(params := p.params[p.num - 1 := U8(p.params[p.num - 1] * 10 + (c - 48))], state := ReadParam), Nothing)
    else if c == SEMICOLON then
      if p.num == 16 then (p.(num := 17, state := Normal), Nothing)
      else (p.(num := p.num + 1, params := p.params[p.num := 0], state := ReadParam), Nothing)
    else if p.state == StartChar && (c == QUESTION || c == 35) then
      (p.(start := c, state := ReadParam), Nothing)
    else
      (p.(state := Normal), Command(p.start, c, p.params[..p.num], p.params))
  }

  function ParseEscape(p: Parser, c: byte): (Parser, Event) {
    match c
    case 91 /* [ */ => (p.(start := 0, num := 1, params := p.params[0 := 0], state := StartChar), Nothing)
    case 35 /* # */ => (p.(state := Hash), Nothing)
    case 40 /* ( */ => (p.(start := c, state := ReadChar), Nothing)
    case 41 /* ) */ => (p.(start := c, state := ReadChar), Nothing)
    case 42 /* * */ => (p.(start := c, state := ReadChar), Nothing)
    case 43 /* + */ => (p.(start := c, state := ReadChar), Nothing)
    case _ => (p.(state := Normal), Escape(c))
  }

  /** Between 1 and 16 parameters, whenever parameters are being read. */
  predicate Reading(p: Parser) {
    p.state == StartChar || p.state == ReadParam ==> 1 <= p.num <= 16
  }

  /** One byte through the parser of `terminal_receive_char_vt102`. */
  function Parse(p: Parser, c: byte): (r: (Parser, Event))
    requires Reading(p)
    ensures Reading(r.0)
  {
    if p.state != Normal && IsInner(c) then (p, Text(c))
    else if p.state != Normal && c == VT then (p.(state := ReadChar), Nothing)
    else
      match p.state
      case Normal => if c == ESC then (p.(state := WaitBracket), Nothing) else (p, Text(c))
      case WaitBracket => ParseEscape(p, c)
      case StartChar => ParseParam(p, c)
      case ReadParam => ParseParam(p, c)
      case Hash => (p.(state := Normal), HashCommand(c))
      case ReadChar => (p.(state := Normal), Designate(p.start, c))
  }

  // ---- The screen and its settings ----

  datatype Charset = US | UK | Graphics

  /** What a character is written with. */
  datatype Pen = Pen(fg: byte, bg: byte, attr: byte)

  datatype Saved = Saved(row: int, col: int, eol: bool, origin: bool, pen: Pen, g0: Charset, g1: Charset)

  datatype Modes = Modes(
    shown: bool, origin: bool, autoWrap: bool, insert: bool, cursorKeys: bool, vt52: bool, inverted: bool)

  type Tabs = t: seq<bool> | |t| == 255 witness seq(255, _ => false)

  /** Every static variable of the terminal, and the cell buffer it draws in. */
  datatype Term = Term(
    parser: Parser, start52: byte, row52: byte,
    row: int, col: int, eol: bool, top: int, bottom: int,
    modes: Modes, pen: Pen, g0: Charset, g1: Charset, useG1: bool, saved: Saved,
    tabs: Tabs, screen: Screen)

  const LAST_ROW := 24
  const LAST_COL := 79
  const UNDERLINE := 1
  const BLINK := 2
  const BOLD := 4
  const INVERSE := 8
  const DEFAULT_PEN := Pen(7, 0, 0)

  function Blank(pen: Pen): Cell {
    Cell(32, pen.fg, pen.bg, 0)
  }

  // ---- Moving the cursor ----

  /** Room made above: the region scrolls down until `row` is in it. */
  function RoomAbove(s: Screen, top: int, bottom: int, row: int, pen: Pen): Screen {
    if row < top then Scroll(s, U8(top), U8(bottom), row - top, pen.fg, pen.bg) else s
  }

  /** Room made below: the region scrolls up until `row` is in it. */
  function RoomBelow(s: Screen, top: int, bottom: int, row: int, pen: Pen): Screen {
    if row > bottom then Scroll(s, U8(top), U8(bottom), row - bottom, pen.fg, pen.bg) else s
  }

  /** The cursor at column `col` of row `row`, where past the right edge is the next row. */
  function Settle(t: Term, row: int, col: int): Term {
    var row2 := Max(row, t.top) + col / 80;
    var above := RoomAbove(t.screen, t.top, t.bottom, row, t.pen);
    t.(row := Min(row2, t.bottom), col := col % 80, eol := false,
       screen := RoomBelow(above, t.top, t.bottom, row2, t.pen))
  }

  /**
   * `move_cursor_wrap`: past the left edge is the row above, past the right edge the one below,
   * and past either end of the scroll region the region scrolls to make room.
   */
  function MoveWrap(t: Term, row: int, col: int): Term {
    if row == t.row && col == t.col then t
    else if col < 0 then Settle(t, row + col / 80, col % 80)
    else Settle(t, row, col)
  }

  /** `v`, or the nearer of the two limits, the lower one first. */
  function Clamp(v: int, low: int, high: int): int {
    if v < low then low else if v > high then high else v
  }

  function MoveWithin(t: Term, row: int, col: int, top: int, bottom: int): Term {
    if row == t.row && col == t.col then t
    else t.(row := Clamp(row, top, bottom), col := Clamp(col, 0, LAST_COL), eol := false)
  }

  /** Only from inside the scroll region, and not out of it. */
  function MoveLimited(t: Term, row: int, col: int): Term {
    if t.top <= t.row <= t.bottom then MoveWithin(t, row, col, t.top, t.bottom) else t
  }

  function InitCursor(t: Term, row: int, col: int): Term {
    MoveWithin(t.(row := -1, col := -1), row, col, 0, LAST_ROW)
  }

  // ---- Text ----

  /** The line-drawing glyphs, as code page 437 has them. */
  const LINE_DRAWING: seq<byte> := [
    0x04, 0xB1, 0x0B, 0x0C, 0x0D, 0x0E, 0xF8, 0xF1, 0x0F, 0x10,
    0xD9, 0xBF, 0xDA, 0xC0, 0xC5, 0x11, 0x12, 0xC4, 0x13, 0x5F,
    0xC3, 0xB4, 0xC1, 0xC2, 0xB3, 0xF3, 0xF2, 0xE3, 0x1C, 0x9C, 0xFA]

  function GraphicsChar(c: byte): byte {
    if 96 <= c <= 126 then LINE_DRAWING[c - 96] else c
  }

  function Glyph(charset: Charset, c: byte): byte {
    match charset
    case US => c
    case UK => if c == 35 then GraphicsChar(125) else c
    case Graphics => GraphicsChar(c)
  }

  function CurrentSet(t: Term): Charset {
    if t.useG1 then t.g1 else t.g0
  }

  function SetCell(s: Screen, col: byte, row: byte, cell: Cell): Screen {
    if row < ROWS && col < COLS then s[row := s[row][col := cell]] else s
  }

  /** The glyph goes in the cell under the cursor, shifting the row first in insert mode. */
  function DrawChar(t: Term, c: byte): Term {
    var s := if t.modes.insert then Insert(t.screen, U8(t.col), U8(t.row), 1, t.pen.fg, t.pen.bg) else t.screen;
    t.(screen := SetCell(s, U8(t.col), U8(t.row),
      Cell(Glyph(CurrentSet(t), c), t.pen.fg, t.pen.bg, t.pen.attr)))
  }

  /** A character past the last column waits there until the next one is printed. */
  function PrintChar(t: Term, c: byte): Term {
    var t1 := if t.eol then MoveWrap(t, t.row + 1, 0).(eol := false) else t;
    var t2 := DrawChar(t1, c);
    if t2.modes.autoWrap && t2.col == LAST_COL then t2.(eol := true)
    else InitCursor(t2, t2.row, t2.col + 1)
  }

  /** The first tab stop at or after `col`, or the last column. */
  function NextTab(tabs: Tabs, col: int): (r: int)
    requires 0 <= col
    ensures col < LAST_COL ==> col <= r <= LAST_COL && (r == LAST_COL || tabs[r])
    ensures col >= LAST_COL ==> r == col
    ensures forall k :: col <= k < r ==> !tabs[k]
    decreases LAST_COL - col
  {
    if col < LAST_COL && !tabs[col] then NextTab(tabs, col + 1) else col
  }

  /** The last tab stop at or before `col`, or the first column. */
  function PrevTab(tabs: Tabs, col: int): (r: int)
    requires col <= LAST_COL
    ensures col > 0 ==> 0 <= r <= col && (r == 0 || tabs[r])
    ensures col <= 0 ==> r == col
    ensures forall k :: r < k <= col ==> !tabs[k]
  {
    if col > 0 && !tabs[col] then PrevTab(tabs, col - 1) else col
  }

  /** `terminal_process_text`. */
  function ProcessText(t: Term, c: byte): Term {
    match c
    case 8 =>
      if t.row > (if t.modes.origin then t.top else 0) then MoveWrap(t, t.row, t.col - 1)
      else MoveLimited(t, t.row, t.col - 1)
    case 9 => if t.col >= 0 then MoveLimited(t, t.row, NextTab(t.tabs, t.col + 1)) else t
    case 10 => MoveWrap(t, t.row + 1, t.col)
    case 11 => MoveWrap(t, t.row + 1, t.col)
    case 12 => MoveWrap(t, t.row + 1, t.col)
    case 13 => MoveWrap(t, t.row, 0)
    case 14 => t.(useG1 := true)
    case 15 => t.(useG1 := false)
    case 127 => t
    case _ => if c >= 32 then PrintChar(t, c) else t
  }

  // ---- Commands ----

  function Reset(t: Term): Term {
    t.(saved := t.saved.(row := 0, col := 0, pen := t.saved.pen.(attr := 0), g0 := US, g1 := Graphics),
       modes := Modes(true, false, true, false, false, false, t.modes.inverted),
       pen := DEFAULT_PEN, top := 0, bottom := LAST_ROW, eol := false,
       g0 := US, g1 := Graphics, useG1 := false,
       tabs := seq(COLS, _ => false) + t.tabs[COLS..])
  }

  function ClearScreen(t: Term): Term {
    InitCursor(t.(screen := Fill(t.screen, 0, 0, LAST_COL, LAST_ROW, Blank(t.pen))), 0, 0)
      .(top := 0, bottom := LAST_ROW, modes := t.modes.(origin := false))
  }

  function Invert(t: Term, on: bool): Term {
    if on == t.modes.inverted then t
    else t.(modes := t.modes.(inverted := on), screen := FlipAll(t.screen))
  }

  function PrivateMode(t: Term, p: byte, on: bool): Term {
    match p
    case 1 => t.(modes := t.modes.(cursorKeys := on))
    case 2 => if on then t else var r := Reset(t); r.(modes := r.modes.(vt52 := true))
    case 3 => ClearScreen(t)
    case 5 => Invert(t, on)
    case 6 => MoveLimited(t.(modes := t.modes.(origin := on)), t.top, 0)
    case 7 => t.(modes := t.modes.(autoWrap := on))
    case 25 => t.(modes := t.modes.(shown := on))
    case _ => t
  }

  function FillPart(t: Term, cs: int, rs: int, ce: int, re: int): Term {
    t.(screen := Fill(t.screen, U8(cs), U8(rs), U8(ce), U8(re), Blank(t.pen)))
  }

  function EraseScreen(t: Term, p: byte): Term {
    match p
    case 0 => FillPart(t, t.col, t.row, LAST_COL, LAST_ROW)
    case 1 => FillPart(t, 0, 0, t.col, t.row)
    case 2 => FillPart(t, 0, 0, LAST_COL, LAST_ROW)
    case _ => t
  }

  function EraseLine(t: Term, p: byte): Term {
    match p
    case 0 => FillPart(t, t.col, t.row, LAST_COL, t.row)
    case 1 => FillPart(t, 0, t.row, t.col, t.row)
    case 2 => FillPart(t, 0, t.row, LAST_COL, t.row)
    case _ => t
  }

  function TopLimit(t: Term): int {
    if t.modes.origin then t.top else 0
  }

  function BottomLimit(t: Term): int {
    if t.modes.origin then t.bottom else LAST_ROW
  }

  function ScrollPart(t: Term, top: int, bottom: int, n: int): Term {
    t.(screen := Scroll(t.screen, U8(top), U8(bottom), I8(n), t.pen.fg, t.pen.bg))
  }

  /** The loop of SU and SD scrolls by every number below `n`, counting down. */
  function ScrollRepeatedly(t: Term, top: int, bottom: int, n: nat, sign: int): Term
    decreases n
  {
    if n == 0 then t
    else ScrollRepeatedly(ScrollPart(t, top, bottom, sign * (n - 1)), top, bottom, n - 1, sign)
  }

  function SetBit(a: byte, bit: byte): (r: byte)
    requires bit in {1, 2, 4, 8}
  {
    if a / bit % 2 == 0 then U8(a + bit) else a
  }

  function ClearBit(a: byte, bit: byte): (r: byte)
    requires bit in {1, 2, 4, 8}
  {
    if a / bit % 2 == 0 then a else U8(a - bit)
  }

  /** One parameter of SGR that stands on its own. */
  function Attribute(pen: Pen, p: byte): Pen {
    if p == 0 then DEFAULT_PEN
    else if p == 1 then pen.(attr := SetBit(pen.attr, BOLD))
    else if p == 2 || p == 22 then pen.(attr := ClearBit(pen.attr, BOLD))
    else if p == 3 || p == 7 then pen.(attr := SetBit(pen.attr, INVERSE))
    else if p == 23 || p == 27 then pen.(attr := ClearBit(pen.attr, INVERSE))
    else if p == 4 then pen.(attr := SetBit(pen.attr, UNDERLINE))
    else if p == 5 then pen.(attr := SetBit(pen.attr, BLINK))
    else if p == 24 then pen.(attr := ClearBit(pen.attr, UNDERLINE))
    else if p == 25 then pen.(attr := ClearBit(pen.attr, BLINK))
    else if 90 <= p <= 97 then pen.(fg := p - 90 + 8)
    else if 100 <= p <= 107 then pen.(bg := p - 100 + 8)
    else if 30 <= p <= 37 then pen.(fg := p - 30)
    else if p == 39 then pen.(fg := DEFAULT_PEN.fg)
    else if 40 <= p <= 47 then pen.(bg := p - 40)
    else if p == 49 then pen.(bg := DEFAULT_PEN.bg)
    else pen
  }

  /** Does the parameter at `i` open a 256-colour form? Its third member may not have been sent. */
  predicate OpensColour(params: Params, num: nat, i: nat)
    requires num <= 16 && i < num
  {
    (params[i] == 38 || params[i] == 48) && num >= i + 2 && params[i + 1] == 5
  }

  /** `params[i]`; one past the array is whatever byte lies there. */
  function ParamAt(params: Params, i: nat, stray: byte): byte {
    if i < 16 then params[i] else stray
  }

  /** SGR from parameter `i` on. */
  function GraphicRendition(pen: Pen, params: Params, num: nat, i: nat, stray: byte): Pen
    requires num <= 16
    decreases num - i
  {
    if i >= num then pen
    else if OpensColour(params, num, i) then
      var colour := ParamAt(params, i + 2, stray) % 16;
      GraphicRendition(if params[i] == 38 then pen.(fg := colour) else pen.(bg := colour),
        params, num, i + 3, stray)
    else GraphicRendition(Attribute(pen, params[i]), params, num, i + 1, stray)
  }

  /** DECSTBM. The bottom is cut to the screen, the top is not: the region may end up inverted. */
  function SetRegion(t: Term, num: nat, p: Params): Term {
    var r :=
      if num == 2 && p[1] > p[0] then t.(top := Max(p[0], 1) - 1, bottom := Min(p[1], ROWS) - 1)
      else if p[0] == 0 then t.(top := 0, bottom := LAST_ROW)
      else t;
    MoveWithin(r, r.top, 0, r.top, r.bottom)
  }

  function Save(t: Term): Term {
    t.(saved := Saved(t.row, t.col, t.eol, t.modes.origin, t.pen, t.g0, t.g1))
  }

  function Restore(t: Term): Term {
    var r := MoveLimited(t, t.saved.row, t.saved.col);
    r.(modes := r.modes.(origin := t.saved.origin), eol := t.saved.eol, pen := t.saved.pen,
       g0 := t.saved.g0, g1 := t.saved.g1)
  }

  function ClearTab(t: Term, p: byte): Term {
    if p == 0 && 0 <= t.col < COLS then t.(tabs := t.tabs[t.col := false])
    else if p == 3 then t.(tabs := seq(COLS, _ => false) + t.tabs[COLS..])
    else t
  }

  datatype Final =
    | SetMode | ResetMode | ED | EL | CUU | CUD | CUF | CUB | CNL | CPL | VPA | CHA | CUP
    | CHT | CBT | IL | DL | ICH | DCH | SU | SD | TBC | SGR | DECSTBM | SCP | RCP | Other

  /** The commands by their final bytes, named as ECMA-48 names them. */
  function FinalOf(c: byte): Final {
    match c
    case 104 /* h */ => SetMode
    case 108 /* l */ => ResetMode
    case 74 /* J */ => ED
    case 75 /* K */ => EL
    case 65 /* A */ => CUU
    case 66 /* B */ => CUD
    case 67 /* C */ => CUF
    case 97 /* a */ => CUF
    case 68 /* D */ => CUB
    case 106 /* j */ => CUB
    case 69 /* E */ => CNL
    case 101 /* e */ => CNL
    case 70 /* F */ => CPL
    case 107 /* k */ => CPL
    case 100 /* d */ => VPA
    case 71 /* G */ => CHA
    case 96 /* ` */ => CHA
    case 72 /* H */ => CUP
    case 102 /* f */ => CUP
    case 73 /* I */ => CHT
    case 90 /* Z */ => CBT
    case 76 /* L */ => IL
    case 77 /* M */ => DL
    case 64 /* @ */ => ICH
    case 80 /* P */ => DCH
    case 83 /* S */ => SU
    case 84 /* T */ => SD
    case 103 /* g */ => TBC
    case 109 /* m */ => SGR
    case 114 /* r */ => DECSTBM
    case 115 /* s */ => SCP
    case 117 /* u */ => RCP
    case _ => Other
  }

  /** `terminal_process_command`; `stray` is a byte read from outside the parameters. */
  function Execute(t: Term, start: byte, f: Final, num: nat, p: Params, stray: byte): Term
    requires num <= 16
  {
    var n := Max(1, p[0]);
    match f
    case SetMode => if start == QUESTION then PrivateMode(t, p[0], true)
                    else if start == 0 && p[0] == 4 then t.(modes := t.modes.(insert := true)) else t
    case ResetMode => if start == QUESTION then PrivateMode(t, p[0], false)
                      else if start == 0 && p[0] == 4 then t.(modes := t.modes.(insert := false)) else t
    case ED => EraseScreen(t, p[0])
    case EL => EraseLine(t, p[0])
    case CUU => MoveLimited(t, t.row - n, t.col)
    case CUD => MoveLimited(t, t.row + n, t.col)
    case CUF => MoveLimited(t, t.row, t.col + n)
    case CUB => MoveLimited(t, t.row, t.col - n)
    case CNL => MoveLimited(t, t.row + n, 0)
    case CPL => MoveLimited(t, t.row - n, 0)
    case VPA => MoveLimited(t, n - 1, t.col)
    case CHA => MoveLimited(t, t.row, n - 1)
    case CUP => MoveWithin(t, TopLimit(t) + n - 1, if num < 2 then 0 else Max(p[1], 1) - 1,
                  TopLimit(t), BottomLimit(t))
    case CHT => if t.col >= 0 then MoveLimited(t, t.row, NextTab(t.tabs, t.col + 1)) else t
    case CBT => if t.col <= LAST_COL then MoveLimited(t, t.row, PrevTab(t.tabs, t.col - 1)) else t
    case IL => ScrollPart(t, t.row, BottomLimit(t), -n)
    case DL => ScrollPart(t, t.row, BottomLimit(t), n)
    case ICH => t.(screen := Insert(t.screen, U8(t.col), U8(t.row), U8(n), t.pen.fg, t.pen.bg))
    case DCH => t.(screen := Delete(t.screen, U8(t.col), U8(t.row), U8(n), t.pen.fg, t.pen.bg))
    case SU => ScrollRepeatedly(t, TopLimit(t), BottomLimit(t), n, 1)
    case SD => ScrollRepeatedly(t, TopLimit(t), BottomLimit(t), n, -1)
    case TBC => ClearTab(t, p[0])
    case SGR => t.(pen := GraphicRendition(t.pen, p, num, 0, stray))
    case DECSTBM => SetRegion(t, num, p)
    case SCP => Save(t)
    case RCP => Restore(t)
    case Other => t
  }

  /** The two-byte escapes. Those that erase get their parameter from a null pointer. */
  function ExecuteEscape(t: Term, c: byte, stray: byte): Term {
    match c
    case 27 => PrintChar(t, ESC)
    case 99 /* c */ => Reset(t)
    case 55 /* 7 */ => Save(t)
    case 56 /* 8 */ => Restore(t)
    case 72 /* H */ => if 0 <= t.col < COLS then t.(tabs := t.tabs[t.col := true]) else t
    case 74 /* J */ => EraseScreen(t, stray)
    case 75 /* K */ => EraseLine(t, stray)
    case 68 /* D */ => MoveWrap(t, t.row + 1, t.col)
    case 69 /* E */ => MoveWrap(t, t.row + 1, 0)
    case 73 /* I */ => MoveWrap(t, t.row - 1, 0)
    case 77 /* M */ => MoveWrap(t, t.row - 1, t.col)
    case _ => t
  }

  function CharsetOf(c: byte): Charset {
    if c == 65 /* A */ then UK else if c == 48 || c == 50 /* 0, 2 */ then Graphics else US
  }

  function Act(t: Term, e: Event, stray: byte): Term {
    match e
    case Nothing => t
    case Text(c) => ProcessText(t, c)
    case Escape(c) => ExecuteEscape(t, c, stray)
    case Command(start, final, args, params) =>
      if |args| <= 16 then Execute(t, start, FinalOf(final), |args|, params, stray) else t
    case HashCommand(c) =>
      if c == 56 /* 8 */ then
        t.(screen := Fill(t.screen, 0, U8(TopLimit(t)), LAST_COL, U8(BottomLimit(t)), Cell(69, t.pen.fg, t.pen.bg, 0)))
      else t
    case Designate(slot, c) =>
      if slot == 40 then t.(g0 := CharsetOf(c)) else if slot == 41 then t.(g1 := CharsetOf(c)) else t
  }

  /** One byte in VT102 mode. */
  function Feed102(t: Term, c: byte, stray: byte): Term
    requires Reading(t.parser)
  {
    var (parser, event) := Parse(t.parser, c);
    Act(t.(parser := parser), event, stray)
  }

  // ---- VT52 mode ----

  function To(t: Term, state: State): Term {
    t.(parser := t.parser.(state := state))
  }

  function Escape52(t: Term, c: byte): Term {
    match c
    case 65 /* A */ => MoveLimited(t, t.row - 1, t.col)
    case 66 /* B */ => MoveLimited(t, t.row + 1, t.col)
    case 67 /* C */ => MoveLimited(t, t.row, t.col + 1)
    case 68 /* D */ => MoveLimited(t, t.row, t.col - 1)
    case 69 /* E */ => MoveLimited(FillPart(t, 0, 0, LAST_COL, LAST_ROW), 0, 0)
    case 72 /* H */ => MoveLimited(t, 0, 0)
    case 73 /* I */ => MoveWrap(t, t.row - 1, t.col)
    case 74 /* J */ => FillPart(t, t.col, t.row, LAST_COL, LAST_ROW)
    case 75 /* K */ => FillPart(t, t.col, t.row, LAST_COL, t.row)
    case 76 /* L */ => ScrollPart(t, t.row, LAST_ROW, -1)
    case 77 /* M */ => ScrollPart(t, t.row, LAST_ROW, 1)
    case 89 /* Y */ => To(t.(start52 := c, row52 := 0), ReadParam)
    case 98 /* b */ => To(t.(start52 := c), ReadParam)
    case 99 /* c */ => To(t.(start52 := c), ReadParam)
    case 100 /* d */ => InitCursor(FillPart(t, 0, 0, t.col, t.row), t.col, t.row)
    case 106 /* j */ => t.(saved := t.saved.(row := t.row, col := t.col))
    case 107 /* k */ => MoveLimited(t, t.saved.row, t.saved.col)
    case 108 /* l */ => InitCursor(FillPart(t, 0, t.row, LAST_COL, t.row), 0, t.row)
    case 111 /* o */ => FillPart(t, 0, t.row, t.col, t.row)
    case 112 /* p */ => Invert(t, true)
    case 113 /* q */ => Invert(t, false)
    case 118 /* v */ => t.(modes := t.modes.(autoWrap := true))
    case 119 /* w */ => t.(modes := t.modes.(autoWrap := false))
    case 60 /* < */ => Reset(t)
    case _ => t
  }

  function Param52(t: Term, c: byte): Term {
    if t.start52 == 89 /* Y */ then
      if t.row52 == 0 then t.(row52 := c)
      else To(if t.row52 >= 32 && c >= 32 then MoveLimited(t, t.row52 - 32, c - 32) else t, Normal)
    else if t.start52 == 98 /* b */ && c >= 32 then t.(pen := t.pen.(fg := (c - 32) % 16))
    else if t.start52 == 99 /* c */ && c >= 32 then t.(pen := t.pen.(bg := (c - 32) % 16))
    else t
  }

  function Feed52(t: Term, c: byte): Term {
    match t.parser.state
    case Normal => if c == ESC then To(t, StartChar) else ProcessText(t, c)
    case StartChar => Escape52(To(t, Normal), c)
    case ReadParam => Param52(t, c)
    case _ => t
  }

  // ---- Runs ----

  /** In VT102 mode the parser is in step; VT52 mode has fewer states. */
  predicate InStep(t: Term) {
    if t.modes.vt52 then t.parser.state in {Normal, StartChar, ReadParam} else Reading(t.parser)
  }

  /** One byte from the link, in whichever mode the terminal is. */
  function Feed(t: Term, c: byte, stray: byte): Term
    requires InStep(t)
  {
    if t.modes.vt52 then Feed52(t, c) else Feed102(t, c, stray)
  }

  /** A byte from the link, and what lies outside the parameters when it arrives. */
  datatype Input = Input(c: byte, stray: byte)

  /** The terminal as `framebuf_init` and `terminal_init` leave it, over statics that start at zero. */
  const INIT: Term :=
    Term(Parser(Normal, 0, 0, seq(16, _ => 0)), 0, 0, 0, 0, false, 0, LAST_ROW,
      Modes(true, false, true, false, false, false, false), DEFAULT_PEN, US, Graphics, false,
      Saved(0, 0, false, false, Pen(0, 0, 0), US, Graphics),
      seq(255, _ => false), seq(ROWS, _ => BlankRow(7, 0)))
}
